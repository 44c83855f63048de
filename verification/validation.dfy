/** The request schemas: record-shape validators over the parsed parts of a
    request. A schema lists the keys it allows, which of them are required,
    what each value must look like, and how many keys must be present at
    least; any other key is refused. The object-id, e-mail, password and date
    checks are library or helper predicates the model takes as parameters. */
module Validation {
  import opened Common
  import Config

  /** A parsed request value, after the validator's own type conversion. */
  datatype Value =
    | Str(s: string)
    | Num(x: real)
    | Bool(b: bool)
    | Bytes
    | Obj(fields: map<string, Value>)

  /** The format checks the schemas delegate. */
  datatype Checks = Checks(
    objectId: string -> bool,  // 24 hexadecimal digits
    email: string -> bool,
    password: string -> bool,  // the password helper rule
    date: Value -> bool)       // a date, an ISO date string or a timestamp

  /** What a single value must be. Strings are non-empty unless listed. */
  datatype Leaf =
    | AnyString                  // a non-empty string
    | OneOf(names: set<string>)  // one of the listed strings
    | Email
    | Password
    | ObjectId
    | Date
    | Integer
    | Number
    | Flag                       // the number 0 or 1
    | Boolean
    | Binary                     // a buffer, or a string converted to one
    | AnyObject

  /** A value is a leaf, or an object whose own keys are leaves. */
  datatype Kind =
    | Plain(leaf: Leaf)
    | Nested(keys: map<string, Leaf>, required: set<string>)

  datatype Field = Field(kind: Kind, required: bool)

  datatype Schema = Schema(fields: map<string, Field>, minKeys: nat)

  function Req(l: Leaf): Field { Field(Plain(l), true) }
  function Opt(l: Leaf): Field { Field(Plain(l), false) }

  predicate LeafOk(l: Leaf, v: Value, c: Checks) {
    match l
    case AnyString => v.Str? && v.s != ""
    case OneOf(names) => v.Str? && v.s in names
    case Email => v.Str? && v.s != "" && c.email(v.s)
    case Password => v.Str? && v.s != "" && c.password(v.s)
    case ObjectId => v.Str? && v.s != "" && c.objectId(v.s)
    case Date => c.date(v)
    case Integer => v.Num? && v.x == v.x.Floor as real
    case Number => v.Num?
    case Flag => v.Num? && (v.x == 0.0 || v.x == 1.0)
    case Boolean => v.Bool?
    case Binary => v.Bytes? || v.Str?
    case AnyObject => v.Obj?
  }

  /** The shape check on one object: no unknown key, every required key
      present, every present value conforming. */
  predicate ShapeOk(allowed: map<string, Leaf>, required: set<string>, m: map<string, Value>, c: Checks) {
    && m.Keys <= allowed.Keys
    && required <= m.Keys
    && forall k :: k in m && k in allowed ==> LeafOk(allowed[k], m[k], c)
  }

  predicate KindOk(k: Kind, v: Value, c: Checks) {
    match k
    case Plain(l) => LeafOk(l, v, c)
    case Nested(keys, required) => v.Obj? && ShapeOk(keys, required, v.fields, c)
  }

  /** The validator's verdict on one part of a request. */
  predicate Accepts(s: Schema, m: map<string, Value>, c: Checks) {
    && m.Keys <= s.fields.Keys
    && (forall k :: k in s.fields && s.fields[k].required ==> k in m)
    && (forall k :: k in m && k in s.fields ==> KindOk(s.fields[k].kind, m[k], c))
    && |m.Keys| >= s.minKeys
  }

  /** A route validates those parts of the request its schema names. */
  datatype Route = Route(params: Option<Schema>, query: Option<Schema>, body: Option<Schema>)

  datatype Request = Request(params: map<string, Value>, query: map<string, Value>, body: map<string, Value>)

  predicate PartOk(s: Option<Schema>, m: map<string, Value>, c: Checks) {
    s.None? || Accepts(s.value, m, c)
  }

  const InvalidRequest := ApiError(BadRequest, "Validation failed")

  /** The validation middleware: the request passes on unchanged or is
      refused with a bad-request error. */
  function Validate(rt: Route, rq: Request, c: Checks): (r: Result<Request>)
    ensures r.Ok? ==> r.value == rq
    ensures r.Err? ==> r.error.status == BadRequest
    ensures r.Ok? <==> PartOk(rt.params, rq.params, c) && PartOk(rt.query, rq.query, c) && PartOk(rt.body, rq.body, c)
  {
    if PartOk(rt.params, rq.params, c) && PartOk(rt.query, rq.query, c) && PartOk(rt.body, rq.body, c)
    then Ok(rq) else Err(InvalidRequest)
  }

  // ---------------------------------------------------------------- tickets

  const TicketTypeNames: set<string> := {"year", "one-time"}

  const TicketIdParams := Schema(map["ticketId" := Req(ObjectId)], 0)

  const CreateTicket := Route(None, None, Some(Schema(map[
    "userId" := Req(ObjectId),
    "type" := Req(OneOf(TicketTypeNames)),
    "startDate" := Opt(Date),
    "endDate" := Opt(Date),
    "img" := Req(Binary)], 0)))

  const UpdateTicket := Route(Some(TicketIdParams), None, Some(Schema(map[
    "startDate" := Opt(Date),
    "endDate" := Opt(Date),
    "img" := Opt(Binary)], 1)))

  const GetTicket := Route(Some(TicketIdParams), None, None)
  const DeleteTicket := Route(Some(TicketIdParams), None, None)

  const GetTickets := Route(None, Some(Schema(map[
    "userId" := Opt(ObjectId),
    "type" := Opt(OneOf(TicketTypeNames)),
    "startDate" := Opt(Date),
    "endDate" := Opt(Date),
    "sortBy" := Opt(AnyString),
    "limit" := Opt(Integer),
    "page" := Opt(Integer)], 0)), None)

  const GetTicketsForUser := Route(Some(Schema(map["userId" := Req(ObjectId)], 0)), None, None)

  /** The request schemas spell the ticket types and roles out themselves;
      they are the same names the configuration lists. */
  lemma SchemaListsMatchConfig()
    ensures TicketTypeNames == set n | n in Config.TicketTypeNames
    ensures RoleNames == set n | n in Config.RoleNames
  {
    assert Config.TicketTypeNames == ["year", "one-time"];
    assert Config.RoleNames == ["user", "admin"];
  }

  /** Listing a user's tickets needs exactly the user's object id in the path. */
  lemma GetTicketsForUserShape(rq: Request, c: Checks)
    requires Validate(GetTicketsForUser, rq, c).Ok?
    ensures rq.params.Keys == {"userId"}
    ensures rq.params["userId"].Str? && c.objectId(rq.params["userId"].s)
  {
    var sc := GetTicketsForUser.params.value;
    assert sc.fields.Keys == {"userId"};
    assert forall k :: k in sc.fields ==> sc.fields[k].required;
    AllRequired(sc, rq.params, c);
    RequiredKey(sc, rq.params, c, "userId");
  }

  /** A created ticket names its owner, one of the two types and an image;
      its dates are optional but must be dates when given. */
  lemma CreateTicketShape(rq: Request, c: Checks)
    requires Validate(CreateTicket, rq, c).Ok?
    ensures rq.body.Keys <= {"userId", "type", "startDate", "endDate", "img"}
    ensures "userId" in rq.body && "type" in rq.body && "img" in rq.body
    ensures rq.body["type"] in {Str("year"), Str("one-time")}
    ensures c.objectId(rq.body["userId"].s)
    ensures "startDate" in rq.body ==> c.date(rq.body["startDate"])
    ensures "endDate" in rq.body ==> c.date(rq.body["endDate"])
  {
    assert "type" in CreateTicket.body.value.fields;
  }

  /** An update carries at least one of start, end and image, and never an
      owner or a type. */
  lemma UpdateTicketShape(rq: Request, c: Checks)
    requires Validate(UpdateTicket, rq, c).Ok?
    ensures rq.body.Keys <= {"startDate", "endDate", "img"} && |rq.body.Keys| >= 1
    ensures "userId" !in rq.body && "type" !in rq.body
    ensures "ticketId" in rq.params && rq.params["ticketId"].Str? && c.objectId(rq.params["ticketId"].s)
  {
  }

  /** A value that is not a date is refused as a start or end date. */
  lemma NonDateRefused(rq: Request, c: Checks, key: string)
    requires key in {"startDate", "endDate"} && key in rq.body && !c.date(rq.body[key])
    ensures Validate(CreateTicket, rq, c).Err?
    ensures Validate(UpdateTicket, rq, c).Err?
  {
    assert key in CreateTicket.body.value.fields;
    assert key in UpdateTicket.body.value.fields;
  }

  /** Listing accepts only the seven filter and paging keys, with integer
      paging values. */
  lemma GetTicketsShape(rq: Request, c: Checks)
    requires Validate(GetTickets, rq, c).Ok?
    ensures rq.query.Keys <= {"userId", "type", "startDate", "endDate", "sortBy", "limit", "page"}
    ensures "limit" in rq.query ==> rq.query["limit"].Num? && rq.query["limit"].x == rq.query["limit"].x.Floor as real
    ensures "page" in rq.query ==> rq.query["page"].Num? && rq.query["page"].x == rq.query["page"].x.Floor as real
  {
    assert "limit" in GetTickets.query.value.fields;
    assert "page" in GetTickets.query.value.fields;
  }

  /** Every route addressing one ticket demands an object id for it. */
  lemma TicketIdIsObjectId(rt: Route, rq: Request, c: Checks)
    requires rt in {GetTicket, UpdateTicket, DeleteTicket}
    requires Validate(rt, rq, c).Ok?
    ensures "ticketId" in rq.params && rq.params["ticketId"].Str? && c.objectId(rq.params["ticketId"].s)
  {
    assert rt.params == Some(TicketIdParams);
    assert "ticketId" in TicketIdParams.fields;
  }

  // ------------------------------------------------------------------ users

  const GenderNames: set<string> := {"male", "female", "other"}
  const RoleNames: set<string> := {"user", "admin"}
  const UserIdParams := Schema(map["userId" := Req(ObjectId)], 0)

  const CreateUser := Route(None, None, Some(Schema(map[
    "email" := Req(Email),
    "password" := Req(Password),
    "firstName" := Req(AnyString),
    "lastName" := Req(AnyString),
    "gender" := Opt(OneOf(GenderNames)),
    "university" := Opt(AnyString),
    "city" := Opt(AnyString),
    "dateOfBirth" := Opt(Date),
    "role" := Req(OneOf(RoleNames))], 0)))

  const UpdateUser := Route(Some(UserIdParams), None, Some(Schema(map[
    "email" := Opt(Email),
    "password" := Opt(Password),
    "firstName" := Opt(AnyString),
    "lastName" := Opt(AnyString),
    "gender" := Opt(OneOf(GenderNames)),
    "university" := Opt(AnyString),
    "city" := Opt(AnyString),
    "dateOfBirth" := Opt(Date)], 1)))

  const ChangePassword := Route(Some(UserIdParams), None, Some(Schema(map[
    "oldPassword" := Opt(Password),
    "newPassword" := Opt(Password)], 2)))

  const InclusiveSearch := Route(None, Some(Schema(map["keyword" := Req(AnyString)], 0)), None)

  const UpdateRole := Route(Some(UserIdParams), None, Some(Schema(map["role" := Req(OneOf(RoleNames))], 0)))

  const UpdateCheckIn := Route(Some(UserIdParams), None, Some(Schema(map["isCheckedIn" := Req(Boolean)], 0)))

  /** A new user comes with e-mail, password, both names and a role; a gender,
      when given, is one of the three. */
  lemma CreateUserShape(rq: Request, c: Checks)
    requires Validate(CreateUser, rq, c).Ok?
    ensures {"email", "password", "firstName", "lastName", "role"} <= rq.body.Keys
    ensures rq.body["role"] in {Str("user"), Str("admin")}
    ensures "gender" in rq.body ==> rq.body["gender"] in {Str("male"), Str("female"), Str("other")}
    ensures "isCheckedIn" !in rq.body
  {
    var sc := CreateUser.body.value;
    assert "isCheckedIn" !in sc.fields;
    CreateUserRequired(rq, c);
    CreateUserEnums(rq, c);
  }

  lemma CreateUserRequired(rq: Request, c: Checks)
    requires Validate(CreateUser, rq, c).Ok?
    ensures {"email", "password", "firstName", "lastName", "role"} <= rq.body.Keys
  {
    var sc := CreateUser.body.value;
    assert sc.fields["email"].required && sc.fields["password"].required && sc.fields["role"].required;
    assert sc.fields["firstName"].required && sc.fields["lastName"].required;
  }

  lemma CreateUserEnums(rq: Request, c: Checks)
    requires Validate(CreateUser, rq, c).Ok?
    ensures "role" in rq.body && rq.body["role"] in {Str("user"), Str("admin")}
    ensures "gender" in rq.body ==> rq.body["gender"] in {Str("male"), Str("female"), Str("other")}
  {
    var sc := CreateUser.body.value;
    assert sc.fields["role"] == Req(OneOf(RoleNames));
    assert sc.fields["gender"] == Opt(OneOf(GenderNames));
    RequiredKey(sc, rq.body, c, "role");
  }

  /** A profile update carries at least one of the eight profile keys and
      can change neither role nor check-in flag. */
  lemma UpdateUserShape(rq: Request, c: Checks)
    requires Validate(UpdateUser, rq, c).Ok?
    ensures rq.body.Keys <= {"email", "password", "firstName", "lastName", "gender", "university", "city", "dateOfBirth"}
    ensures |rq.body.Keys| >= 1
    ensures "role" !in rq.body && "isCheckedIn" !in rq.body
  {
  }

  /** A role change names a valid role; a check-in change carries a boolean. */
  lemma RoleAndCheckInShape(rq: Request, c: Checks)
    ensures Validate(UpdateRole, rq, c).Ok? ==> "role" in rq.body && rq.body["role"] in {Str("user"), Str("admin")}
    ensures Validate(UpdateCheckIn, rq, c).Ok? ==> "isCheckedIn" in rq.body && rq.body["isCheckedIn"].Bool?
  {
    assert "role" in UpdateRole.body.value.fields;
    assert "isCheckedIn" in UpdateCheckIn.body.value.fields;
  }

  /** Neither password key is marked required, but at most two keys are
      allowed and at least two must be present, so both are. */
  lemma {:induction false} ChangePasswordNeedsBoth(rq: Request, c: Checks)
    requires Validate(ChangePassword, rq, c).Ok?
    ensures "oldPassword" in rq.body && "newPassword" in rq.body
  {
    var keys := rq.body.Keys;
    assert keys <= {"oldPassword", "newPassword"};
    if "oldPassword" !in keys {
      assert keys <= {"newPassword"};
      SubsetCard(keys, {"newPassword"});
      assert false;
    }
    if "newPassword" !in keys {
      assert keys <= {"oldPassword"};
      SubsetCard(keys, {"oldPassword"});
      assert false;
    }
  }

  lemma SubsetCard<T>(a: set<T>, b: set<T>)
    requires a <= b
    ensures |a| <= |b|
  {
    assert b == a + (b - a);
  }

  /** A search needs a keyword, and the empty string is not one. */
  lemma SearchNeedsKeyword(rq: Request, c: Checks)
    ensures Validate(InclusiveSearch, rq, c).Ok? ==> "keyword" in rq.query && rq.query["keyword"].Str? && rq.query["keyword"].s != ""
    ensures rq.query == map["keyword" := Str("")] ==> Validate(InclusiveSearch, rq, c).Err?
  {
    assert "keyword" in InclusiveSearch.query.value.fields;
  }

  // --------------------------------------------------------------- check-ins

  const AddCheckIn := Route(None, None, Some(Schema(map["userId" := Req(ObjectId), "date" := Opt(Date)], 0)))

  const GetCheckIns := Route(None, Some(Schema(map[
    "userId" := Opt(ObjectId),
    "date" := Opt(Date),
    "sortBy" := Opt(AnyString),
    "limit" := Opt(Integer),
    "page" := Opt(Integer)], 0)), None)

  const ManageCheckInsForUser := Route(Some(UserIdParams), None, None)

  /** A check-in names its user and may carry a date; the user id alone is
      enough. */
  lemma AddCheckInShape(rq: Request, c: Checks, id: string)
    ensures Validate(AddCheckIn, rq, c).Ok? ==> "userId" in rq.body && rq.body.Keys <= {"userId", "date"}
    ensures rq.body == map["userId" := Str(id)] && id != "" && c.objectId(id) ==> Validate(AddCheckIn, rq, c).Ok?
  {
    assert "userId" in AddCheckIn.body.value.fields;
  }

  /** Listing check-ins accepts only the five filter and paging keys, with
      integer paging values. */
  lemma GetCheckInsShape(rq: Request, c: Checks)
    requires Validate(GetCheckIns, rq, c).Ok?
    ensures rq.query.Keys <= {"userId", "date", "sortBy", "limit", "page"}
    ensures "limit" in rq.query ==> rq.query["limit"].Num? && rq.query["limit"].x == rq.query["limit"].x.Floor as real
    ensures "page" in rq.query ==> rq.query["page"].Num? && rq.query["page"].x == rq.query["page"].x.Floor as real
  {
    assert "limit" in GetCheckIns.query.value.fields;
    assert "page" in GetCheckIns.query.value.fields;
  }

  /** Managing a user's check-ins needs the user's object id. */
  lemma ManageCheckInsShape(rq: Request, c: Checks)
    requires Validate(ManageCheckInsForUser, rq, c).Ok?
    ensures "userId" in rq.params && rq.params["userId"].Str? && c.objectId(rq.params["userId"].s)
  {
    assert "userId" in UserIdParams.fields;
  }

  // --------------------------------------------------------------- analytics

  const QueryTimeInterval := Route(None, Some(Schema(map[
    "startDate" := Req(Date),
    "endDate" := Req(Date),
    "dateOfBirth" := Opt(Flag),
    "gender" := Opt(Flag),
    "university" := Opt(Flag),
    "city" := Opt(Flag)], 0)), None)

  const QueryAllTime := Route(None, Some(Schema(map[
    "dateOfBirth" := Opt(Flag),
    "gender" := Opt(Flag),
    "university" := Opt(Flag),
    "city" := Opt(Flag)], 0)), None)

  const FlagNames: set<string> := {"dateOfBirth", "gender", "university", "city"}

  /** An interval query has two dates; every flag present is 0 or 1. */
  lemma TimeIntervalShape(rq: Request, c: Checks)
    requires Validate(QueryTimeInterval, rq, c).Ok?
    ensures "startDate" in rq.query && c.date(rq.query["startDate"])
    ensures "endDate" in rq.query && c.date(rq.query["endDate"])
    ensures forall k :: k in rq.query && k in FlagNames ==> rq.query[k] in {Num(0.0), Num(1.0)}
  {
    assert "startDate" in QueryTimeInterval.query.value.fields;
    assert "endDate" in QueryTimeInterval.query.value.fields;
    forall k | k in rq.query && k in FlagNames
      ensures rq.query[k] in {Num(0.0), Num(1.0)}
    {
      assert QueryTimeInterval.query.value.fields[k] == Opt(Flag);
    }
  }

  /** The flags may all be left out. */
  lemma FlagsMayBeOmitted(rq: Request, c: Checks, s: Value, e: Value)
    requires rq.query == map["startDate" := s, "endDate" := e] && c.date(s) && c.date(e)
    ensures Validate(QueryTimeInterval, rq, c).Ok?
    ensures rq.query.Keys == {"startDate", "endDate"}
  {
    var sc := QueryTimeInterval.query.value;
    var m := rq.query;
    assert m.Keys == {"startDate", "endDate"};
    assert sc.fields["startDate"] == Req(Date) && sc.fields["endDate"] == Req(Date);
    forall k | k in sc.fields && sc.fields[k].required ensures k in m {
      assert k == "startDate" || k == "endDate";
    }
    forall k | k in m && k in sc.fields ensures KindOk(sc.fields[k].kind, m[k], c) {
      assert k == "startDate" || k == "endDate";
    }
    assert Accepts(sc, m, c);
  }

  /** The all-time query takes only the four flags and no dates. */
  lemma AllTimeShape(rq: Request, c: Checks)
    ensures Validate(QueryAllTime, rq, c).Ok? ==> rq.query.Keys <= FlagNames
    ensures "startDate" in rq.query || "endDate" in rq.query ==> Validate(QueryAllTime, rq, c).Err?
  {
  }

  // ----------------------------------------------------------------- payments

  const GetPaymentMethods := Route(None, None, Some(Schema(map[
    "amount" := Field(Nested(map["currency" := AnyString, "value" := Number], {"currency", "value"}), false)], 0)))

  const MakePayment := Route(None, None, Some(Schema(map[
    "paymentMethod" := Req(AnyObject),
    "ticketType" := Req(OneOf(TicketTypeNames)),
    "userId" := Req(ObjectId),
    "img" := Req(Binary)], 0)))

  /** A payment names a method object, a ticket type, the buyer's object id
      and an image, and nothing else. */
  lemma MakePaymentShape(rq: Request, c: Checks)
    requires Validate(MakePayment, rq, c).Ok?
    ensures rq.body.Keys == {"paymentMethod", "ticketType", "userId", "img"}
    ensures rq.body["paymentMethod"].Obj?
    ensures rq.body["ticketType"] in {Str("year"), Str("one-time")}
    ensures rq.body["userId"].Str? && c.objectId(rq.body["userId"].s)
  {
    MakePaymentKeys(rq, c);
    MakePaymentValues(rq, c);
  }

  lemma MakePaymentValues(rq: Request, c: Checks)
    requires Validate(MakePayment, rq, c).Ok?
    ensures "paymentMethod" in rq.body && rq.body["paymentMethod"].Obj?
    ensures "ticketType" in rq.body && rq.body["ticketType"].Str? && rq.body["ticketType"].s in TicketTypeNames
    ensures "userId" in rq.body && rq.body["userId"].Str? && c.objectId(rq.body["userId"].s)
  {
    var sc := MakePayment.body.value;
    assert sc.fields["paymentMethod"].kind == Plain(AnyObject);
    assert sc.fields["ticketType"].kind == Plain(OneOf(TicketTypeNames));
    assert sc.fields["userId"].kind == Plain(ObjectId);
    RequiredKey(sc, rq.body, c, "paymentMethod");
    RequiredKey(sc, rq.body, c, "ticketType");
    RequiredKey(sc, rq.body, c, "userId");
  }

  lemma MakePaymentKeys(rq: Request, c: Checks)
    requires Validate(MakePayment, rq, c).Ok?
    ensures rq.body.Keys == {"paymentMethod", "ticketType", "userId", "img"}
  {
    var sc := MakePayment.body.value;
    assert sc.fields.Keys == {"paymentMethod", "ticketType", "userId", "img"};
    assert forall k :: k in sc.fields ==> sc.fields[k].required;
    AllRequired(sc, rq.body, c);
  }

  /** In an accepted part whose keys are all required, the keys are exactly
      the schema's. */
  lemma AllRequired(sc: Schema, m: map<string, Value>, c: Checks)
    requires Accepts(sc, m, c) && forall k :: k in sc.fields ==> sc.fields[k].required
    ensures m.Keys == sc.fields.Keys
  {
  }

  /** In an accepted part, a required key is present and conforms. */
  lemma RequiredKey(sc: Schema, m: map<string, Value>, c: Checks, k: string)
    requires Accepts(sc, m, c) && k in sc.fields && sc.fields[k].required
    ensures k in m && KindOk(sc.fields[k].kind, m[k], c)
  {
  }

  /** The amount may be left out; given, it is exactly a string currency and
      a number value. */
  lemma PaymentMethodsAmount(rq: Request, c: Checks)
    ensures rq.body == map[] ==> Validate(GetPaymentMethods, rq, c).Ok?
    ensures Validate(GetPaymentMethods, rq, c).Ok? ==> rq.body.Keys <= {"amount"}
    ensures Validate(GetPaymentMethods, rq, c).Ok? && "amount" in rq.body ==>
      var a := rq.body["amount"];
      && a.Obj? && a.fields.Keys == {"currency", "value"}
      && a.fields["currency"].Str? && a.fields["currency"].s != "" && a.fields["value"].Num?
  {
    assert "amount" in GetPaymentMethods.body.value.fields;
  }
}
