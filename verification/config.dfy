/** The fixed configuration tables: the ticket types with their prices, and
    the roles with the rights each one holds. */
module Config {
  import opened Common

  datatype TicketType = Year | OneTime

  /** The name a ticket type has in requests and documents. */
  function TicketTypeName(t: TicketType): string {
    match t
    case Year => "year"
    case OneTime => "one-time"
  }

  /** The list of ticket type names, in the order the configuration lists them. */
  const TicketTypeNames: seq<string> := ["year", "one-time"]

  function ParseTicketType(s: string): (r: Option<TicketType>)
    ensures r.Some? <==> s in TicketTypeNames
    ensures r.Some? ==> TicketTypeName(r.value) == s
  {
    if s == "year" then Some(Year)
    else if s == "one-time" then Some(OneTime)
    else None
  }

  lemma TicketTypeNamesRoundTrip(t: TicketType)
    ensures ParseTicketType(TicketTypeName(t)) == Some(t)
    ensures TicketTypeName(t) in TicketTypeNames
  {
  }

  lemma TicketTypesAreExactlyTwo()
    ensures |TicketTypeNames| == 2
    ensures TicketTypeNames[0] != TicketTypeNames[1]
    ensures forall t: TicketType :: TicketTypeName(t) in TicketTypeNames
  {
  }

  /** A charge in minor units of a currency, as the payment gateway expects. */
  datatype Amount = Amount(currency: string, value: int)

  /** The price table, keyed by ticket type name. */
  const TicketPrices: map<string, Amount> :=
    map[TicketTypeNames[0] := Amount("EUR", 850), TicketTypeNames[1] := Amount("EUR", 200)]

  /** The price of a ticket type: a total lookup for every valid type. */
  function Price(t: TicketType): (a: Amount)
    ensures a.currency == "EUR"
    ensures t.Year? ==> a.value == 850
    ensures t.OneTime? ==> a.value == 200
  {
    PriceTableTotal(t);
    TicketPrices[TicketTypeName(t)]
  }

  lemma PriceTableTotal(t: TicketType)
    ensures TicketTypeName(t) in TicketPrices
    ensures TicketPrices.Keys == set n | n in TicketTypeNames
  {
  }

  datatype Role = UserRole | AdminRole

  function RoleName(r: Role): string {
    match r
    case UserRole => "user"
    case AdminRole => "admin"
  }

  const RoleNames: seq<string> := ["user", "admin"]

  function ParseRole(s: string): (r: Option<Role>)
    ensures r.Some? <==> s in RoleNames
    ensures r.Some? ==> RoleName(r.value) == s
  {
    if s == "user" then Some(UserRole)
    else if s == "admin" then Some(AdminRole)
    else None
  }

  /** The rights table. */
  function Rights(r: Role): seq<string> {
    match r
    case UserRole => ["makePayments"]
    case AdminRole => ["getUsers", "manageUsers", "manageTickets", "manageCheckIns", "analytics"]
  }

  lemma RightsTable()
    ensures forall x :: x in Rights(UserRole) <==> x == "makePayments"
    ensures "makePayments" !in Rights(AdminRole)
    ensures forall x :: x in ["getUsers", "manageUsers", "manageTickets", "manageCheckIns", "analytics"]
                        ==> x in Rights(AdminRole)
    ensures forall r: Role :: "userOnly" !in Rights(r)
    ensures forall r: Role :: ParseRole(RoleName(r)) == Some(r)
  {
  }
}
