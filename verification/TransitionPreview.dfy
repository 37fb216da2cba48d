/** The preview of a next-day transition, compared with the guard inside the transaction. */
module TransitionPreview {
  import opened Text
  import opened CivilDates
  import opened DatedParticipation

  // ----- what the preview sees -----

  /** A row of the member's history as shown: days are text, an open end is the empty text. */
  datatype ViewRow = ViewRow(id: Id, programme: Id, startsOn: string, endsOn: string, actorIsAdmin: bool)

  /** The actor's authority as the view query evaluates it. */
  datatype Viewer = Viewer(admin: bool, active: bool, grants: set<Id>, currentSeasons: set<Id>)

  predicate InRange(day: int, last: int) { 1 <= day <= last }

  /** Every stored day lies between 1 and last. */
  predicate RowInRange(r: Row, last: int) { InRange(r.startsOn, last) && (r.endsOn.Some? ==> InRange(r.endsOn.value, last)) }

  predicate RowsInRange(rows: Rows, last: int) { forall i :: i in rows ==> RowInRange(rows[i], last) }

  /** The coach holds a grant for the programme of a current interval of the member (classificationScope). */
  predicate Anchored(rows: Rows, member: Id, v: Viewer, today: int)
  {
    v.active && exists i :: i in rows && rows[i].member == member && rows[i].programme in v.grants
                            && rows[i].season in v.currentSeasons && Covers(rows[i], today)
  }

  predicate Visible(rows: Rows, i: Id, member: Id, v: Viewer, today: int)
    requires i in rows
  {
    && rows[i].member == member
    && (v.admin || Anchored(rows, member, v, today))
    && (v.admin || (rows[i].programme in v.grants && rows[i].season in v.currentSeasons))
  }

  function Shown(i: Id, r: Row, v: Viewer, text: int -> string): ViewRow
  {
    ViewRow(i, r.programme, text(r.startsOn), if r.endsOn == None then "" else text(r.endsOn.value), v.admin)
  }

  /** view lists exactly the visible rows. */
  ghost predicate IsView(view: seq<ViewRow>, rows: Rows, member: Id, v: Viewer, today: int, text: int -> string)
  {
    && (forall i :: i in rows && Visible(rows, i, member, v, today) ==> Shown(i, rows[i], v, text) in view)
    && (forall x :: x in view ==> x.id in rows && Visible(rows, x.id, member, v, today) && x == Shown(x.id, rows[x.id], v, text))
  }

  // ----- the preview -----

  datatype Preview = NoPrevious | Previous(row: ViewRow) | NotFound | CrossProgramme

  predicate Found(x: ViewRow, previous: Id, today: string, startsOn: string)
  {
    x.id == previous && Less(x.startsOn, today) && (x.endsOn == "" || Leq(startsOn, x.endsOn))
  }

  /** The part of datedPreview that looks for the interval to close. */
  method DatedPreview(view: seq<ViewRow>, previous: Option<Id>, programme: Id, today: string, startsOn: string)
    returns (p: Preview)
    ensures p == NoPrevious <==> previous == None
    ensures p.Previous? ==> p.row in view && Found(p.row, previous.value, today, startsOn)
    ensures p.Previous? ==> forall x :: x in view && Found(x, previous.value, today, startsOn) ==> x.actorIsAdmin || x.programme == programme
    ensures p == NotFound ==> forall x :: x in view ==> !Found(x, previous.value, today, startsOn)
    ensures p == CrossProgramme ==>
              exists x :: x in view && Found(x, previous.value, today, startsOn) && !x.actorIsAdmin && x.programme != programme
  {
    if previous == None { return NoPrevious; }
    p := NotFound;
    for i := 0 to |view|
      invariant p.NotFound? || p.Previous?
      invariant p == NotFound ==> forall x :: x in view[..i] ==> !Found(x, previous.value, today, startsOn)
      invariant p.Previous? ==> p.row in view && Found(p.row, previous.value, today, startsOn)
      invariant forall x :: x in view[..i] && Found(x, previous.value, today, startsOn) ==> x.actorIsAdmin || x.programme == programme
    {
      var row := view[i];
      if Found(row, previous.value, today, startsOn) {
        if !row.actorIsAdmin && row.programme != programme { return CrossProgramme; }
        p := Previous(row);
      }
      assert view[..i + 1] == view[..i] + [row];
    }
    assert view[..|view|] == view;
  }

  /** The preview accepts the transition. */
  ghost predicate Previewed(view: seq<ViewRow>, a: Assignment, f: Facts, text: int -> string)
    requires a.previous.Some?
  {
    exists x :: x in view && Found(x, a.previous.value, text(f.today), text(f.today + 1))
                && (x.actorIsAdmin || x.programme == a.programme)
  }

  // ----- preview and guard -----

  /** The viewer and the transaction's facts describe the same moment and actor. */
  predicate SameMoment(v: Viewer, a: Assignment, f: Facts)
  {
    && f.admin == v.admin
    && f.grant == (v.active && a.programme in v.grants && a.season in v.currentSeasons)
  }

  /** The comparisons of text in the preview are the comparisons of days in the guard. */
  lemma FoundInView(r: Row, i: Id, v: Viewer, today: int, text: int -> string, last: int)
    requires OrderedText(text, last) && RowInRange(r, last) && InRange(today, last) && InRange(today + 1, last)
    ensures Found(Shown(i, r, v, text), i, text(today), text(today + 1))
       <==> r.startsOn < today && (r.endsOn == None || r.endsOn.value >= today + 1)
  {
  }

  /** The states, days and view that the comparison of preview and guard is about. */
  ghost predicate Comparable(rows: Rows, view: seq<ViewRow>, a: Assignment, f: Facts, v: Viewer, text: int -> string, last: int)
  {
    && a.previous.Some? && SameMoment(v, a, f) && IsView(view, rows, a.member, v, f.today, text)
    && OrderedText(text, last) && RowsInRange(rows, last) && InRange(f.today, last) && InRange(f.today + 1, last)
  }

  /**
   * Main result: for an authorised actor, the guard of the transaction would close the row exactly when the preview
   * of the same state accepts the transition and the row belongs to the submitted season. DayTextOrdered provides
   * the text that the handler uses.
   */
  lemma GuardIffPreview(rows: Rows, view: seq<ViewRow>, a: Assignment, f: Facts, v: Viewer, text: int -> string, last: int)
    requires Comparable(rows, view, a, f, v, text, last) && (f.admin || f.grant)
    ensures Closable(rows, a.previous.value, a, f)
       <==> Previewed(view, a, f, text) && a.previous.value in rows && rows[a.previous.value].season == a.season
  {
    if Closable(rows, a.previous.value, a, f) { ClosableIsPreviewed(rows, view, a, f, v, text, last); }
    if Previewed(view, a, f, text) { PreviewedIsClosable(rows, view, a, f, v, text, last); }
  }

  lemma ClosableIsPreviewed(rows: Rows, view: seq<ViewRow>, a: Assignment, f: Facts, v: Viewer, text: int -> string, last: int)
    requires Comparable(rows, view, a, f, v, text, last) && (f.admin || f.grant)
    requires Closable(rows, a.previous.value, a, f)
    ensures Previewed(view, a, f, text) && a.previous.value in rows && rows[a.previous.value].season == a.season
  {
    var i := a.previous.value;
    var x := Shown(i, rows[i], v, text);
    FoundInView(rows[i], i, v, f.today, text, last);
    hide Found, OrderedText;
    assert Covers(rows[i], f.today);
    assert Visible(rows, i, a.member, v, f.today);
    assert x in view && (x.actorIsAdmin || x.programme == a.programme);
  }

  lemma PreviewedIsClosable(rows: Rows, view: seq<ViewRow>, a: Assignment, f: Facts, v: Viewer, text: int -> string, last: int)
    requires Comparable(rows, view, a, f, v, text, last) && Previewed(view, a, f, text)
    ensures a.previous.value in rows && (rows[a.previous.value].season == a.season ==> Closable(rows, a.previous.value, a, f))
  {
    var i := a.previous.value;
    var x :| x in view && Found(x, i, text(f.today), text(f.today + 1)) && (x.actorIsAdmin || x.programme == a.programme);
    assert x.id == i && i in rows;
    assert x == Shown(i, rows[i], v, text);
    FoundInView(rows[i], i, v, f.today, text, last);
    hide Found, OrderedText, Anchored;
  }

  /**
   * What the preview accepts, in terms of the row: the member's, begun before today and not over tomorrow; for a coach also
   * in the submitted programme, granted to this coach, and in a current season.
   */
  lemma PreviewedIff(rows: Rows, view: seq<ViewRow>, a: Assignment, f: Facts, v: Viewer, text: int -> string, last: int)
    requires Comparable(rows, view, a, f, v, text, last)
    ensures Previewed(view, a, f, text) <==>
            a.previous.value in rows
            && var r := rows[a.previous.value];
               && r.member == a.member && r.startsOn < f.today && (r.endsOn == None || r.endsOn.value > f.today)
               && (v.admin || (v.active && r.programme == a.programme && r.programme in v.grants && r.season in v.currentSeasons))
  {
    var i := a.previous.value;
    if i in rows { FoundInView(rows[i], i, v, f.today, text, last); }
    hide Found, OrderedText;
    if Previewed(view, a, f, text) {
      var x :| x in view && Found(x, i, text(f.today), text(f.today + 1)) && (x.actorIsAdmin || x.programme == a.programme);
      assert x.id == i by { FoundId(x, i, text(f.today), text(f.today + 1)); }
      assert x == Shown(i, rows[i], v, text);
    }
    if i in rows && rows[i].member == a.member && Covers(rows[i], f.today) && Visible(rows, i, a.member, v, f.today) {
      assert Shown(i, rows[i], v, text) in view;
    }
  }

  lemma FoundId(x: ViewRow, previous: Id, today: string, startsOn: string)
    requires Found(x, previous, today, startsOn)
    ensures x.id == previous
  {
  }

  /**
   * Without the season the preview may accept what the guard refuses: an administrator previews a transition into the
   * current season 6 of an interval that runs on until tomorrow in season 5. The row is one the table can hold, every
   * check before the change passes, and the transaction ends with the transition error.
   */
  lemma PreviewAloneIsNotEnough(today: int, digest: Version -> string, text: int -> string, last: int)
    requires OrderedText(text, last) && InRange(today - 1, last) && InRange(today + 1, last)
    ensures var rows: Rows := map[3 := Row(1, 5, 7, None, None, today - 1, Some(today + 1), 0, None)];
            var seasons := map[5 := Season(today - 1, today + 1), 6 := Season(today + 1, today + 365)];
            var v := Viewer(true, true, {}, {6});
            var f := Facts(today, 0, true, false, Some(true), Some(false), None, seasons, 0, digest, true, true, 9);
            var a := Assignment(2, 1, 6, 7, None, today + 1, Some(3), "", "");
            var view := [Shown(3, rows[3], v, text)];
            && WithinSeason(rows[3], f) && Exclusive(rows) && Proper(rows)
            && Comparable(rows, view, a, f, v, text, last) && Previewed(view, a, f, text)
            && !Closable(rows, 3, a, f) && Written(rows, a, f) == (rows, TransitionError)
  {
    var rows: Rows := map[3 := Row(1, 5, 7, None, None, today - 1, Some(today + 1), 0, None)];
    var v := Viewer(true, true, {}, {6});
    var view := [Shown(3, rows[3], v, text)];
    FoundInView(rows[3], 3, v, today, text, last);
    hide Found, OrderedText;
    assert view[0] in view;
  }
}
