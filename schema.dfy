/**
 * The rows of the service's tables (models/property.go, models/customer.go
 * and the user model), without gorm's bookkeeping columns (ID where it is not
 * used, timestamps, soft-delete marker).
 */
module Schema {

  import opened Text

  /** A registered account.  `password` holds the bcrypt hash, never the
      password itself; `role` is "user" for every stored row. */
  datatype User = User(username: string, password: string, phone: string, role: string)

  /** The users table, keyed by phone (the unique natural key). */
  type UserTable = map<string, User>

  /** What registration guarantees of every stored row: it sits under its own
      phone, the phone is 11 bytes long, the username is not empty and the
      role is "user". */
  predicate WellFormedUsers(users: UserTable)
  {
    forall p :: p in users ==>
      users[p].phone == p && ByteLen(p) == 11 && users[p].username != "" && users[p].role == "user"
  }

  datatype Address = Address(distinct: int, details: string)

  /** A listing.  Price and size are float64 in the source; they are only
      compared with integer bounds, so reals are exact here.  `createdAt` is
      the creation time already formatted for responses. */
  datatype Property = Property(
    id: nat,
    address: Address,
    direction: int,
    height: int,
    totalHeight: int,
    price: real,
    renovation: int,
    room: int,
    size: real,
    special: int,
    subjectMatter: int,
    richTextUrl: string,
    createdAt: string)

  /** A photo of a listing; at most one per listing should be the main one. */
  datatype PropertyImage = PropertyImage(propertyId: nat, url: string, isMain: bool)

  /** A customer record; every field is a string in the source. */
  datatype Customer = Customer(
    customerId: string,
    name: string,
    phone: string,
    address: string,
    gender: string,
    price: string,
    other: string)
}
