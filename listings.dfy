/**
 * The validation rules for a new listing (CreatePropertyBaseInfoRequest.Validate
 * in handler/property.go): ten closed-range checks, made in a fixed order,
 * of which the first that fails names the error.
 */
module Listings {

  import opened Text

  datatype AddressInput = AddressInput(distinct: int, details: string)

  /** The body of a listing-creation request.  Price and size are float64
      in the source; they are only compared with 0 here. */
  datatype CreatePropertyBaseInfoRequest = CreatePropertyBaseInfoRequest(
    address: AddressInput,
    direction: int,
    height: int,
    price: real,
    renovation: int,
    room: int,
    size: real,
    special: int,
    subjectMatter: int)

  /** One rule: whether the request satisfies it, and the message reported
      when it does not. */
  datatype Rule = Rule(holds: bool, message: string)

  /** The rules in the order Validate checks them. */
  function Rules(req: CreatePropertyBaseInfoRequest): (rules: seq<Rule>)
    ensures |rules| == 10
  {
    [ Rule(100000 <= req.address.distinct <= 999999, "地区编码必须是6位数字"),
      Rule(ByteLen(req.address.details) != 0, "地址详情不能为空"),
      Rule(1 <= req.direction <= 10, "朝向必须在1-10范围内"),
      Rule(1 <= req.height <= 3, "楼层高度必须在1-3范围内"),
      Rule(req.price > 0.0, "价格必须大于0"),
      Rule(1 <= req.renovation <= 4, "装修状态必须在1-4范围内"),
      Rule(1 <= req.room <= 5, "房间数必须在1-5范围内"),
      Rule(req.size > 0.0, "面积必须大于0"),
      Rule(1 <= req.special <= 5, "特殊类型必须在1-5范围内"),
      Rule(1 <= req.subjectMatter <= 4, "标的物类型必须在1-4范围内") ]
  }

  /** A request every rule accepts, stated field by field. */
  predicate WellFormedListing(req: CreatePropertyBaseInfoRequest)
  {
    && 100000 <= req.address.distinct <= 999999
    && req.address.details != ""
    && 1 <= req.direction <= 10
    && 1 <= req.height <= 3
    && req.price > 0.0
    && 1 <= req.renovation <= 4
    && 1 <= req.room <= 5
    && req.size > 0.0
    && 1 <= req.special <= 5
    && 1 <= req.subjectMatter <= 4
  }

  /** Validate: (true, "") when the request passes every rule, otherwise
      false and the message of the first rule it breaks. */
  function Validate(req: CreatePropertyBaseInfoRequest): (r: (bool, string))
    ensures r.0 <==> WellFormedListing(req)
    ensures r.0 ==> r.1 == ""
    ensures !r.0 ==> exists k :: 0 <= k < 10 && !Rules(req)[k].holds && r.1 == Rules(req)[k].message
                        && forall j :: 0 <= j < k ==> Rules(req)[j].holds
  {
    var rules := Rules(req);
    if req.address.distinct < 100000 || req.address.distinct > 999999 then
      assert !rules[0].holds;
      (false, "地区编码必须是6位数字")
    else if ByteLen(req.address.details) == 0 then
      assert !rules[1].holds;
      (false, "地址详情不能为空")
    else if req.direction < 1 || req.direction > 10 then
      assert !rules[2].holds;
      (false, "朝向必须在1-10范围内")
    else if req.height < 1 || req.height > 3 then
      assert !rules[3].holds;
      (false, "楼层高度必须在1-3范围内")
    else if req.price <= 0.0 then
      assert !rules[4].holds;
      (false, "价格必须大于0")
    else if req.renovation < 1 || req.renovation > 4 then
      assert !rules[5].holds;
      (false, "装修状态必须在1-4范围内")
    else if req.room < 1 || req.room > 5 then
      assert !rules[6].holds;
      (false, "房间数必须在1-5范围内")
    else if req.size <= 0.0 then
      assert !rules[7].holds;
      (false, "面积必须大于0")
    else if req.special < 1 || req.special > 5 then
      assert !rules[8].holds;
      (false, "特殊类型必须在1-5范围内")
    else if req.subjectMatter < 1 || req.subjectMatter > 4 then
      assert !rules[9].holds;
      (false, "标的物类型必须在1-4范围内")
    else (true, "")
  }

  /** Every rule has its own message, so the message identifies the rule
      that failed. */
  lemma MessagesIdentifyRules(req: CreatePropertyBaseInfoRequest)
    ensures forall j, k :: 0 <= j < k < 10 ==> Rules(req)[j].message != Rules(req)[k].message
  {
  }

  /** A request that breaks several rules is reported by the earliest: an
      out-of-range region code hides every other mistake. */
  lemma RegionCodeReportedFirst(req: CreatePropertyBaseInfoRequest)
    requires !(100000 <= req.address.distinct <= 999999)
    ensures Validate(req) == (false, Rules(req)[0].message)
  {
  }
}
