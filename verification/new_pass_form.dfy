/** The admin's form for adding a pass to a visitor: the visitor named in
    the page's path, the pass type, the period (a year from today unless
    changed), a photo, and what the server's replies do to the form. */
module NewPassForm {
  import opened Common
  import opened Dates
  import opened Config
  import opened UrlText

  datatype Form = Form(
    userId: string,
    firstName: string,
    lastName: string,
    err: string,
    errPass: string,
    ttype: string,
    startDate: string,
    endDate: string,
    img: string,
    redirect: Option<string>)

  /** The form opened at `path` on `today`: the user id is the fourth piece
      of the path, the period runs from today to a year later. */
  function InitialForm(path: string, today: Date): (f: Form)
    requires Valid(today) && today.year + 1 <= 9999
    ensures f.userId == Piece(path, '/', 3)
    ensures ParseYMD(f.startDate) == Some(today)
    ensures ParseYMD(f.endDate) == Some(AddYears(today, 1))
    ensures StrLt(f.startDate, f.endDate)
    ensures f.ttype == "" && f.img == "" && f.err == "" && f.redirect.None?
  {
    AddYearLater(today);
    YMDRoundTrip(today);
    YMDRoundTrip(AddYears(today, 1));
    Form(Piece(path, '/', 3), "", "", "", "", "", FormatYMD(today), FormatYMD(AddYears(today, 1)), "", None)
  }

  /** The page for a visitor is `/Admin/NewPassForm/<id>`. */
  lemma PathGivesUserId(id: string)
    requires '/' !in id
    ensures Piece("/Admin/NewPassForm/" + id, '/', 3) == id
  {
    var parts := ["", "Admin", "NewPassForm", id];
    assert Join(parts[3..], '/') == id;
    assert Join(parts[2..], '/') == "NewPassForm/" + id;
    assert Join(parts[1..], '/') == "Admin/NewPassForm/" + id;
    assert Join(parts, '/') == "/Admin/NewPassForm/" + id;
    SplitJoin(parts, '/');
  }

  /** How the request for the visitor's name ended. */
  datatype Lookup = Found(firstName: string, lastName: string) | Failed(status: Option<int>)

  /** `componentDidMount`: without a user id nothing is asked and the form
      says no user was given; otherwise the reply fills in the name, or
      reports "not found" for a 400 or 404 and a general error for anything
      else, a failure without a response included. */
  function Mount(f: Form, reply: Lookup): (r: Form)
    ensures f.userId == "" ==> r == f.(err := "Geen gebruiker gespecificeerd")
    ensures f.userId != "" && reply.Found? ==> r == f.(firstName := reply.firstName, lastName := reply.lastName)
    ensures f.userId != "" && reply.Failed? ==>
              r == f.(err := if reply.status == Some(400) || reply.status == Some(404)
                             then "Gebruiker niet gevonden" else "Er is iets misgegaan")
  {
    if f.userId == "" then f.(err := "Geen gebruiker gespecificeerd")
    else
      match reply
      case Found(first, last) => f.(firstName := first, lastName := last)
      case Failed(status) =>
        if status.Some? then
          if status.value == 400 || status.value == 404 then f.(err := "Gebruiker niet gevonden")
          else f.(err := "Er is iets misgegaan")
        else f.(err := "Er is iets misgegaan")
  }

  /** The page for the empty id names no user. */
  lemma EmptyPathNamesNoUser(today: Date, reply: Lookup)
    requires Valid(today) && today.year + 1 <= 9999
    ensures Mount(InitialForm("/Admin/NewPassForm/", today), reply).err == "Geen gebruiker gespecificeerd"
  {
    PathGivesUserId("");
    assert "/Admin/NewPassForm/" + "" == "/Admin/NewPassForm/";
    assert InitialForm("/Admin/NewPassForm/", today).userId == "";
  }

  /** `handleChange`: the radio buttons "1" and "2" set the type to their
      value; input "3" takes a start date only if it lies before the end
      date, input "4" an end date only if it lies after the start date.
      Every change clears the submission error. */
  function HandleChange(f: Form, id: string, val: string): (r: Form)
    ensures r.errPass == ""
    ensures r == f.(errPass := "", ttype := r.ttype, startDate := r.startDate, endDate := r.endDate)
    ensures r.ttype == if id == "1" || id == "2" then val else f.ttype
    ensures r.startDate == if id == "3" && StrLt(val, f.endDate) then val else f.startDate
    ensures r.endDate == if id == "4" && StrLt(f.startDate, val) then val else f.endDate
  {
    var f' := f.(errPass := "");
    if id == "1" || id == "2" then f'.(ttype := val)
    else if id == "3" then (if StrLt(val, f.endDate) then f'.(startDate := val) else f')
    else if id == "4" then (if StrLt(f.startDate, val) then f'.(endDate := val) else f')
    else f'
  }

  /** The period stays in order through any change. */
  lemma HandleChangeKeepsOrder(f: Form, id: string, val: string)
    requires StrLt(f.startDate, f.endDate)
    ensures StrLt(HandleChange(f, id, val).startDate, HandleChange(f, id, val).endDate)
  {
  }

  /** The radio buttons carry the two type names the server accepts. */
  lemma RadioValuesAreTicketTypes()
    ensures ParseTicketType("year") == Some(Year) && ParseTicketType("one-time") == Some(OneTime)
  {
  }

  /** `handleCropComplete`. */
  function HandleCropComplete(f: Form, img: string): (r: Form)
    ensures r.img == img && r.(img := f.img) == f
  {
    f.(img := img)
  }

  /** The body `handleSubmit` posts to `/tickets/`. */
  datatype NewTicket = NewTicket(userId: string, ttype: string, startDate: string, endDate: string, img: string)

  /** `handleSubmit`: post the pass; on success go back to the visitor's
      page, on failure show an error. */
  function HandleSubmit(f: Form, ok: bool): (r: (NewTicket, Form))
    ensures r.0 == NewTicket(f.userId, f.ttype, f.startDate, f.endDate, f.img)
    ensures ok ==> r.1 == f.(redirect := Some("/Admin/UserDetails/" + f.userId))
    ensures !ok ==> r.1 == f.(errPass := "Pas toevoegen mislukt")
  {
    var body := NewTicket(f.userId, f.ttype, f.startDate, f.endDate, f.img);
    (body, if ok then f.(redirect := Some("/Admin/UserDetails/" + f.userId)) else f.(errPass := "Pas toevoegen mislukt"))
  }

  /** A form left untouched posts a period of a year from today. */
  lemma UntouchedFormPostsAYear(path: string, today: Date, ok: bool)
    requires Valid(today) && today.year + 1 <= 9999
    ensures var body := HandleSubmit(InitialForm(path, today), ok).0;
            ParseYMD(body.startDate) == Some(today) && ParseYMD(body.endDate) == Some(AddYears(today, 1))
  {
  }
}
