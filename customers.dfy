/**
 * The customer handlers of handler/customer.go over the customers table,
 * kept in insertion order.  Creating and listing with masked phones are open
 * to every resolved caller (CheckUser); the unmasked list, updates and
 * deletes only to the administrator (CheckAdmin).
 */
module Customers {

  import opened Wrappers
  import opened Schema
  import opened Access

  /** What UserListCustomers shows instead of a phone number. */
  const PhoneMask := "***********"

  predicate IdTaken(rows: seq<Customer>, id: string)
  {
    exists i :: 0 <= i < |rows| && rows[i].customerId == id
  }

  /** No two rows share a customer_id. */
  predicate UniqueIds(rows: seq<Customer>)
  {
    forall i, j :: 0 <= i < j < |rows| ==> rows[i].customerId != rows[j].customerId
  }

  /** gorm's `Updates` with a struct: every non-empty field of `req`
      replaces the stored one, empty fields leave it as it is. */
  function Overlay(c: Customer, req: Customer): (r: Customer)
    ensures r.customerId == (if req.customerId != "" then req.customerId else c.customerId)
    ensures r.name == (if req.name != "" then req.name else c.name)
    ensures r.phone == (if req.phone != "" then req.phone else c.phone)
    ensures r.address == (if req.address != "" then req.address else c.address)
    ensures r.gender == (if req.gender != "" then req.gender else c.gender)
    ensures r.price == (if req.price != "" then req.price else c.price)
    ensures r.other == (if req.other != "" then req.other else c.other)
  {
    Customer(
      if req.customerId != "" then req.customerId else c.customerId,
      if req.name != "" then req.name else c.name,
      if req.phone != "" then req.phone else c.phone,
      if req.address != "" then req.address else c.address,
      if req.gender != "" then req.gender else c.gender,
      if req.price != "" then req.price else c.price,
      if req.other != "" then req.other else c.other)
  }

  /** The table after `UPDATE ... WHERE customer_id = id`. */
  function Updated(rows: seq<Customer>, id: string, req: Customer): (r: seq<Customer>)
    ensures |r| == |rows|
    ensures forall i :: 0 <= i < |rows| ==>
              r[i] == if rows[i].customerId == id then Overlay(rows[i], req) else rows[i]
  {
    seq(|rows|, i requires 0 <= i < |rows| => if rows[i].customerId == id then Overlay(rows[i], req) else rows[i])
  }

  /** The rows `DELETE ... WHERE customer_id = id` leaves, in order. */
  function Kept(rows: seq<Customer>, id: string): (r: seq<Customer>)
    ensures forall c :: c in r <==> c in rows && c.customerId != id
    ensures |r| <= |rows|
  {
    if rows == [] then []
    else if rows[0].customerId == id then Kept(rows[1..], id)
    else [rows[0]] + Kept(rows[1..], id)
  }

  /** The rows that delete removes, in order. */
  function Removed(rows: seq<Customer>, id: string): (r: seq<Customer>)
    ensures forall c :: c in r ==> c in rows && c.customerId == id
  {
    if rows == [] then []
    else if rows[0].customerId == id then [rows[0]] + Removed(rows[1..], id)
    else Removed(rows[1..], id)
  }

  /** A delete splits the table: the kept rows and the removed rows together
      are exactly the rows there were. */
  lemma {:induction false} DeleteSplitsTable(rows: seq<Customer>, id: string)
    ensures multiset(Kept(rows, id)) + multiset(Removed(rows, id)) == multiset(rows)
  {
    if rows != [] {
      DeleteSplitsTable(rows[1..], id);
      assert rows == [rows[0]] + rows[1..];
    }
  }

  /** A delete removes something exactly when some row carries the id. */
  lemma {:induction false} RemovedIffTaken(rows: seq<Customer>, id: string)
    ensures Removed(rows, id) != [] <==> IdTaken(rows, id)
  {
    if rows != [] {
      RemovedIffTaken(rows[1..], id);
      if IdTaken(rows[1..], id) {
        var i :| 0 <= i < |rows[1..]| && rows[1..][i].customerId == id;
        assert rows[i + 1].customerId == id;
      }
      if IdTaken(rows, id) && rows[0].customerId != id {
        var i :| 0 <= i < |rows| && rows[i].customerId == id;
        assert rows[1..][i - 1].customerId == id;
      }
    }
  }

  /** Deleting keeps the customer_id of the rows unique. */
  lemma {:induction false} KeptKeepsIdsUnique(rows: seq<Customer>, id: string)
    requires UniqueIds(rows)
    ensures UniqueIds(Kept(rows, id))
  {
    if rows != [] {
      assert UniqueIds(rows[1..]) by {
        forall i, j | 0 <= i < j < |rows[1..]| ensures rows[1..][i].customerId != rows[1..][j].customerId {
          assert rows[1..][i] == rows[i + 1] && rows[1..][j] == rows[j + 1];
        }
      }
      KeptKeepsIdsUnique(rows[1..], id);
      if rows[0].customerId != id {
        var rest := Kept(rows[1..], id);
        forall j | 0 <= j < |rest| ensures rows[0].customerId != rest[j].customerId {
          assert rest[j] in rows[1..];
          var k :| 0 <= k < |rows[1..]| && rows[1..][k] == rest[j];
          assert rows[k + 1] == rest[j];
        }
      }
    }
  }

  /** Appending a row whose customer_id is not taken keeps the ids unique. */
  lemma AppendKeepsIdsUnique(rows: seq<Customer>, c: Customer)
    requires UniqueIds(rows) && !IdTaken(rows, c.customerId)
    ensures UniqueIds(rows + [c])
  {
    var r := rows + [c];
    forall i, j | 0 <= i < j < |r| ensures r[i].customerId != r[j].customerId {
      if j == |rows| {
        assert r[i] == rows[i];
      } else {
        assert r[i] == rows[i] && r[j] == rows[j];
      }
    }
  }

  /** Nothing stops an update from copying another row's customer_id: the
      uniqueness that creation checks is not kept by ModifyCustomers. */
  lemma UpdateCanDuplicateIds(a: Customer, b: Customer)
    requires a.customerId != b.customerId && b.customerId != ""
    ensures UniqueIds([a, b])
    ensures !UniqueIds(Updated([a, b], a.customerId, Customer(b.customerId, "", "", "", "", "", "")))
  {
    var r := Updated([a, b], a.customerId, Customer(b.customerId, "", "", "", "", "", ""));
    assert r[0].customerId == b.customerId && r[1] == b;
  }

  class CustomerTable {

    /** The live rows, in insertion order. */
    var rows: seq<Customer>

    constructor(initial: seq<Customer>)
      ensures rows == initial
    {
      rows := initial;
    }

    /** CreateCustomer: CheckUser, binding (40080), the customer_id lookup
        (50080 on failure, 40081 when taken), the insert (50081). */
    method CreateCustomer(context: Context, users: UserTable, lookupFails: bool, body: Option<Customer>,
                          queryFails: bool, insertFails: bool) returns (errno: int)
      modifies this
      ensures CheckUser(GetPhoneFromJWT(context, users, lookupFails)).Some? ==>
                errno == CheckUser(GetPhoneFromJWT(context, users, lookupFails)).value
      ensures CheckUser(GetPhoneFromJWT(context, users, lookupFails)).None? && body.None? ==> errno == 40080
      ensures CheckUser(GetPhoneFromJWT(context, users, lookupFails)).None? && body.Some? && queryFails ==> errno == 50080
      ensures CheckUser(GetPhoneFromJWT(context, users, lookupFails)).None? && body.Some? && !queryFails
              && IdTaken(old(rows), body.value.customerId) ==>
                errno == 40081
      ensures CheckUser(GetPhoneFromJWT(context, users, lookupFails)).None? && body.Some? && !queryFails
              && !IdTaken(old(rows), body.value.customerId) && insertFails ==>
                errno == 50081
      ensures errno == 20080 <==>
                CheckUser(GetPhoneFromJWT(context, users, lookupFails)).None? && body.Some? && !queryFails
                && !IdTaken(old(rows), body.value.customerId) && !insertFails
      ensures errno == 20080 ==> rows == old(rows) + [body.value]
      ensures errno != 20080 ==> rows == old(rows)
      ensures UniqueIds(old(rows)) ==> UniqueIds(rows)
    {
      var denied := CheckUser(GetPhoneFromJWT(context, users, lookupFails));
      if denied.Some? {
        return denied.value;
      }
      if body.None? {
        return 40080;
      }
      var req := body.value;
      if queryFails {
        return 50080;
      }
      if IdTaken(rows, req.customerId) {
        return 40081;
      }
      if insertFails {
        return 50081;
      }
      if UniqueIds(rows) {
        AppendKeepsIdsUnique(rows, req);
      }
      rows := rows + [req];
      errno := 20080;
    }

    /** UserListCustomers: every row, in order, with its phone replaced by
        the mask; 50082 when the query fails. */
    method UserListCustomers(context: Context, users: UserTable, lookupFails: bool, queryFails: bool)
      returns (r: Result<seq<Customer>, int>)
      ensures CheckUser(GetPhoneFromJWT(context, users, lookupFails)).Some? ==>
                r == Err(CheckUser(GetPhoneFromJWT(context, users, lookupFails)).value)
      ensures r.Ok? <==> CheckUser(GetPhoneFromJWT(context, users, lookupFails)).None? && !queryFails
      ensures CheckUser(GetPhoneFromJWT(context, users, lookupFails)).None? && queryFails ==> r == Err(50082)
      ensures r.Ok? ==>
                |r.value| == |rows|
                && forall i :: 0 <= i < |rows| ==> r.value[i] == rows[i].(phone := PhoneMask)
    {
      var denied := CheckUser(GetPhoneFromJWT(context, users, lookupFails));
      if denied.Some? {
        return Err(denied.value);
      }
      if queryFails {
        return Err(50082);
      }
      var customers := new Customer[|rows|](i requires 0 <= i < |rows| reads this => rows[i]);
      var i := 0;
      while i < customers.Length
        invariant 0 <= i <= customers.Length == |rows|
        invariant forall j :: 0 <= j < i ==> customers[j] == rows[j].(phone := PhoneMask)
        invariant forall j :: i <= j < customers.Length ==> customers[j] == rows[j]
      {
        customers[i] := customers[i].(phone := PhoneMask);
        i := i + 1;
      }
      r := Ok(customers[..]);
    }

    /** AdminListCustomers: every row as stored; 50082 when the query fails. */
    method AdminListCustomers(context: Context, users: UserTable, lookupFails: bool, queryFails: bool)
      returns (r: Result<seq<Customer>, int>)
      ensures CheckAdmin(GetPhoneFromJWT(context, users, lookupFails)).Some? ==> r == Err(40012)
      ensures r.Ok? <==> CheckAdmin(GetPhoneFromJWT(context, users, lookupFails)).None? && !queryFails
      ensures CheckAdmin(GetPhoneFromJWT(context, users, lookupFails)).None? && queryFails ==> r == Err(50082)
      ensures r.Ok? ==> r.value == rows
    {
      var denied := CheckAdmin(GetPhoneFromJWT(context, users, lookupFails));
      if denied.Some? {
        return Err(denied.value);
      }
      if queryFails {
        return Err(50082);
      }
      r := Ok(rows);
    }

    /** ModifyCustomers: CheckAdmin, binding (40082), the update (50083),
        and 40083 when no row carries the id. */
    method ModifyCustomers(context: Context, users: UserTable, lookupFails: bool, id: string,
                           body: Option<Customer>, updateFails: bool) returns (errno: int)
      modifies this
      ensures CheckAdmin(GetPhoneFromJWT(context, users, lookupFails)).Some? ==> errno == 40012
      ensures CheckAdmin(GetPhoneFromJWT(context, users, lookupFails)).None? && body.None? ==> errno == 40082
      ensures CheckAdmin(GetPhoneFromJWT(context, users, lookupFails)).None? && body.Some? && updateFails ==> errno == 50083
      ensures CheckAdmin(GetPhoneFromJWT(context, users, lookupFails)).None? && body.Some? && !updateFails ==>
                (errno == 40083 <==> !IdTaken(old(rows), id))
      ensures errno == 20000 <==>
                CheckAdmin(GetPhoneFromJWT(context, users, lookupFails)).None? && body.Some? && !updateFails
                && IdTaken(old(rows), id)
      ensures errno == 20000 ==> rows == Updated(old(rows), id, body.value)
      ensures errno != 20000 ==> rows == old(rows)
    {
      var denied := CheckAdmin(GetPhoneFromJWT(context, users, lookupFails));
      if denied.Some? {
        return denied.value;
      }
      if body.None? {
        return 40082;
      }
      if updateFails {
        return 50083;
      }
      // The update touches the matching rows; with none of them nothing changes.
      if !IdTaken(rows, id) {
        return 40083;
      }
      rows := Updated(rows, id, body.value);
      errno := 20000;
    }

    /** DeleteCustomers: CheckAdmin, an empty id (40083), the delete (50084),
        and 40084 when no row carries the id. */
    method DeleteCustomers(context: Context, users: UserTable, lookupFails: bool, id: string,
                           deleteFails: bool) returns (errno: int)
      modifies this
      ensures CheckAdmin(GetPhoneFromJWT(context, users, lookupFails)).Some? ==> errno == 40012
      ensures CheckAdmin(GetPhoneFromJWT(context, users, lookupFails)).None? && id == "" ==> errno == 40083
      ensures CheckAdmin(GetPhoneFromJWT(context, users, lookupFails)).None? && id != "" && deleteFails ==> errno == 50084
      ensures errno == 20000 <==>
                CheckAdmin(GetPhoneFromJWT(context, users, lookupFails)).None? && id != "" && !deleteFails
                && IdTaken(old(rows), id)
      ensures CheckAdmin(GetPhoneFromJWT(context, users, lookupFails)).None? && id != "" && !deleteFails
              && !IdTaken(old(rows), id) ==>
                errno == 40084
      ensures errno == 20000 ==> rows == Kept(old(rows), id)
      ensures errno != 20000 ==> rows == old(rows)
      ensures UniqueIds(old(rows)) ==> UniqueIds(rows)
    {
      var denied := CheckAdmin(GetPhoneFromJWT(context, users, lookupFails));
      if denied.Some? {
        return denied.value;
      }
      if id == "" {
        return 40083;
      }
      if deleteFails {
        return 50084;
      }
      if !IdTaken(rows, id) {
        return 40084;
      }
      if UniqueIds(rows) {
        KeptKeepsIdsUnique(rows, id);
      }
      rows := Kept(rows, id);
      errno := 20000;
    }
  }
}
