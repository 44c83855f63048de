/** A pass as the admin sees it on a visitor's page: its labels and
    dates, and the edit form for its dates and photo. */
module PassCard {
  import opened Common
  import opened Dates
  import opened Config

  /** The type label a pass shows. */
  function TypeLabel(ttype: string): string {
    if ttype == "year" then "Jaarpas" else "Dagpas"
  }

  /** The price a pass shows. */
  function CostLabel(ttype: string): string {
    if ttype == "year" then "€8,50" else "€2,00"
  }

  /** A decimal numeral without leading zeros. */
  function Numeral(n: nat): (s: string)
    ensures |s| >= 1
  {
    if n < 10 then [DigitChar(n)] else Numeral(n / 10) + [DigitChar(n % 10)]
  }

  /** An amount in cents written the Dutch way: euros, a comma, two digits
      of cents. */
  function Euro(cents: nat): string {
    "€" + Numeral(cents / 100) + "," + Pad(cents % 100, 2)
  }

  /** The label shown agrees with the price charged. */
  lemma CostMatchesPrice(t: TicketType)
    ensures CostLabel(TicketTypeName(t)) == Euro(Price(t).value)
    ensures TypeLabel(TicketTypeName(t)) == if t.Year? then "Jaarpas" else "Dagpas"
  {
    if t.Year? {
      assert Price(t).value == 850;
      YearEuro();
    } else {
      assert Price(t).value == 200;
      DayEuro();
    }
  }

  lemma YearEuro()
    ensures Euro(850) == "€8,50"
  {
    assert Numeral(8) == "8";
    assert Pad(50, 2) == Pad(5, 1) + [DigitChar(0)] == "50";
  }

  lemma DayEuro()
    ensures Euro(200) == "€2,00"
  {
    assert Numeral(2) == "2";
    assert Pad(0, 2) == Pad(0, 1) + [DigitChar(0)] == "00";
  }

  /** The edit form's values: dates as `yyyy-MM-dd`, and the photo. */
  datatype Edit = Edit(startDate: string, endDate: string, image: string)

  datatype Card = Card(
    passId: string,
    typeLabel: string,
    cost: string,
    startDate: string,
    endDate: string,
    image: string,
    modifyMode: bool,
    modifyErr: string,
    deleted: bool,
    deleteErr: string,
    edit: Edit)

  /** The card for a pass: dates shown as `dd-MM-yyyy`, the edit form
      filled with the same dates as `yyyy-MM-dd`. */
  function NewCard(passId: string, ttype: string, start: Date, end: Date, image: string): (c: Card)
    requires Valid(start) && Valid(end)
    ensures ParseDMY(c.startDate) == Some(start) && ParseDMY(c.endDate) == Some(end)
    ensures ParseYMD(c.edit.startDate) == Some(start) && ParseYMD(c.edit.endDate) == Some(end)
    ensures c.edit.image == c.image == image
    ensures c.typeLabel == TypeLabel(ttype) && c.cost == CostLabel(ttype)
    ensures !c.modifyMode && !c.deleted && c.modifyErr == "" && c.deleteErr == ""
  {
    DMYRoundTrip(start);
    DMYRoundTrip(end);
    YMDRoundTrip(start);
    YMDRoundTrip(end);
    Card(passId, TypeLabel(ttype), CostLabel(ttype), FormatDMY(start), FormatDMY(end), image,
         false, "", false, "", Edit(FormatYMD(start), FormatYMD(end), image))
  }

  /** `modifyMode`: open the edit form. */
  function EnterModifyMode(c: Card): (r: Card)
    ensures r.modifyMode && r.(modifyMode := c.modifyMode) == c
  {
    c.(modifyMode := true)
  }

  /** `handleChange`: input "1" takes a start date only if it lies before
      the end date, input "2" an end date only if it lies after the start
      date; the comparison is on the `yyyy-MM-dd` texts. */
  function HandleChange(c: Card, id: string, val: string): (r: Card)
    ensures r == c.(edit := r.edit)
    ensures r.edit.image == c.edit.image
    ensures id == "1" && StrLt(val, c.edit.endDate) ==> r.edit.startDate == val && r.edit.endDate == c.edit.endDate
    ensures id == "2" && StrLt(c.edit.startDate, val) ==> r.edit.endDate == val && r.edit.startDate == c.edit.startDate
    ensures !(id == "1" && StrLt(val, c.edit.endDate)) && !(id == "2" && StrLt(c.edit.startDate, val)) ==> r == c
  {
    var e := c.edit;
    if id == "1" then
      (if StrLt(val, e.endDate) then c.(edit := e.(startDate := val)) else c)
    else if id == "2" then
      (if StrLt(e.startDate, val) then c.(edit := e.(endDate := val)) else c)
    else c
  }

  /** Editing never puts the start at or after the end. */
  lemma HandleChangeKeepsOrder(c: Card, id: string, val: string)
    requires StrLt(c.edit.startDate, c.edit.endDate)
    ensures StrLt(HandleChange(c, id, val).edit.startDate, HandleChange(c, id, val).edit.endDate)
  {
  }

  /** For real dates the guard is the calendar order. */
  lemma GuardIsCalendarOrder(a: Date, b: Date)
    requires Valid(a) && Valid(b)
    ensures StrLt(FormatYMD(a), FormatYMD(b)) <==> Before(a, b)
  {
    YMDOrder(a, b);
  }

  /** `handleCropComplete`: the cropped photo replaces the form's photo. */
  function HandleCropComplete(c: Card, img: string): (r: Card)
    ensures r.edit == c.edit.(image := img) && r == c.(edit := r.edit)
  {
    c.(edit := c.edit.(image := img))
  }

  /** `cancelModification`: close the form and refill it from the dates
      and photo shown; a shown date that does not parse makes the
      formatting throw, modelled as no result. */
  function CancelModification(c: Card): (r: Option<Card>)
    ensures r.Some? <==> ParseDMY(c.startDate).Some? && ParseDMY(c.endDate).Some?
    ensures r.Some? ==> r.value == c.(modifyMode := false, modifyErr := "",
                                      edit := Edit(FormatYMD(ParseDMY(c.startDate).value),
                                                   FormatYMD(ParseDMY(c.endDate).value), c.image))
  {
    match (ParseDMY(c.startDate), ParseDMY(c.endDate))
    case (Some(s), Some(e)) => Some(c.(modifyMode := false, modifyErr := "", edit := Edit(FormatYMD(s), FormatYMD(e), c.image)))
    case _ => None
  }

  /** Edits and crops leave the shown pass alone, so cancelling puts the
      form back exactly as the card was made. */
  lemma CancelUndoesEdits(passId: string, ttype: string, start: Date, end: Date, image: string,
                          id: string, val: string, img: string)
    requires Valid(start) && Valid(end)
    ensures var c := NewCard(passId, ttype, start, end, image);
            var edited := HandleCropComplete(HandleChange(EnterModifyMode(c), id, val), img);
            CancelModification(edited) == Some(c)
  {
  }

  /** The server's copy of the pass after an update. */
  datatype Stored = Stored(startDate: Date, endDate: Date, img: string)

  /** The request `saveModification` sends. */
  function PatchPath(c: Card): string { "/tickets/" + c.passId }

  function PatchBody(c: Card): Edit { c.edit }

  /** The edit request addresses the card's own pass (different passes,
      different paths) and carries the form's dates and photo as they stand. */
  lemma PatchNamesThePass(c: Card, d: Card)
    ensures PatchPath(c)[..9] == "/tickets/" && PatchPath(c)[9..] == c.passId
    ensures PatchPath(c) == PatchPath(d) <==> c.passId == d.passId
    ensures PatchBody(c) == Edit(c.edit.startDate, c.edit.endDate, c.edit.image)
  {
    assert PatchPath(c)[9..] == c.passId && PatchPath(d)[9..] == d.passId;
  }

  /** `saveModification`: on success show the server's dates and photo and
      close the form; on failure keep the form open with an error. */
  function SaveModification(c: Card, reply: Option<Stored>): (r: Card)
    requires reply.Some? ==> Valid(reply.value.startDate) && Valid(reply.value.endDate)
    ensures reply.None? ==> r == c.(modifyErr := "Pas wijzigen mislukt")
    ensures reply.Some? ==> && ParseDMY(r.startDate) == Some(reply.value.startDate)
                            && ParseDMY(r.endDate) == Some(reply.value.endDate)
                            && r.image == reply.value.img
                            && !r.modifyMode && r.modifyErr == ""
    ensures r.passId == c.passId && r.edit == c.edit && r.deleted == c.deleted
  {
    match reply
    case None => c.(modifyErr := "Pas wijzigen mislukt")
    case Some(s) =>
      DMYRoundTrip(s.startDate);
      DMYRoundTrip(s.endDate);
      c.(startDate := FormatDMY(s.startDate), endDate := FormatDMY(s.endDate), image := s.img,
         modifyMode := false, modifyErr := "")
  }

  /** After a successful save, reopening and cancelling the form fills it
      with what the server stored. */
  lemma SaveThenCancel(c: Card, s: Stored)
    requires Valid(s.startDate) && Valid(s.endDate)
    ensures CancelModification(SaveModification(c, Some(s))).Some?
    ensures CancelModification(SaveModification(c, Some(s))).value.edit
            == Edit(FormatYMD(s.startDate), FormatYMD(s.endDate), s.img)
  {
  }

  /** `deleteAccount` (of the pass): marked deleted, or an error. */
  function DeletePass(c: Card, ok: bool): (r: Card)
    ensures ok ==> r == c.(deleted := true)
    ensures !ok ==> r == c.(deleteErr := "Pas verwijderen mislukt")
  {
    if ok then c.(deleted := true) else c.(deleteErr := "Pas verwijderen mislukt")
  }
}
