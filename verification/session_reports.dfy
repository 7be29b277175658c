/**
 Session notes ("fichas") kept per appointment: the client list with each
 client's latest appointment date and the name search, one client's visit
 history, and opening and saving the note of one appointment (an upsert keyed
 by appointment id).
 */
module SessionReports {
  import opened Types
  import opened Text
  import opened Seqs

  // ---------------------------------------------------------------------------
  // Client list with last visit
  // ---------------------------------------------------------------------------

  /** Shown in place of a last visit for a client without appointments. */
  const NoDate: string := "0000-00-00"

  /** A client together with the date of their latest appointment. */
  datatype ClientRow = ClientRow(client: Client, lastDate: string)

  /** Comparator `b.date.localeCompare(a.date)`: latest date first. */
  predicate LaterDateFirst(a: Appointment, b: Appointment) {
    LexLe(b.date, a.date)
  }

  /** Comparator `b.lastDate.localeCompare(a.lastDate)`: most recent visit first. */
  predicate LaterVisitFirst(a: ClientRow, b: ClientRow) {
    LexLe(b.lastDate, a.lastDate)
  }

  lemma LaterDateFirstOrder()
    ensures Total(LaterDateFirst) && Transitive(LaterDateFirst)
  {
    forall a: Appointment, b: Appointment ensures LaterDateFirst(a, b) || LaterDateFirst(b, a) {
      LexLeTotal(a.date, b.date);
    }
    forall a: Appointment, b: Appointment, c: Appointment | LaterDateFirst(a, b) && LaterDateFirst(b, c)
      ensures LaterDateFirst(a, c)
    {
      LexLeTransitive(c.date, b.date, a.date);
    }
  }

  lemma LaterVisitFirstOrder()
    ensures Total(LaterVisitFirst) && Transitive(LaterVisitFirst)
  {
    forall a: ClientRow, b: ClientRow ensures LaterVisitFirst(a, b) || LaterVisitFirst(b, a) {
      LexLeTotal(a.lastDate, b.lastDate);
    }
    forall a: ClientRow, b: ClientRow, c: ClientRow | LaterVisitFirst(a, b) && LaterVisitFirst(b, c)
      ensures LaterVisitFirst(a, c)
    {
      LexLeTransitive(c.lastDate, b.lastDate, a.lastDate);
    }
  }

  /** `apps.filter(a => a.clientId === clientId).sort(latest first)` */
  function LatestFirst(apps: seq<Appointment>, clientId: string): (r: seq<Appointment>)
    ensures forall a :: a in r <==> a in apps && a.clientId == clientId
    ensures multiset(r) == multiset(Filter(apps, (a: Appointment) => a.clientId == clientId))
    ensures forall i, j :: 0 <= i < j < |r| ==> LexLe(r[j].date, r[i].date)
  {
    LaterDateFirstOrder();
    var mine := Filter(apps, (a: Appointment) => a.clientId == clientId);
    var r := Sort(mine, LaterDateFirst);
    SameElements(r, mine);
    SortedPairwise(r, LaterDateFirst);
    assert forall i, j :: 0 <= i < j < |r| ==> LaterDateFirst(r[i], r[j]);
    r
  }

  /** The date of the client's latest appointment, or `NoDate` when there is none. */
  function LastDate(clientId: string, apps: seq<Appointment>): (r: string)
    ensures (forall i :: 0 <= i < |apps| ==> apps[i].clientId != clientId) ==> r == NoDate
    ensures (exists i :: 0 <= i < |apps| && apps[i].clientId == clientId) ==>
      && (exists i :: 0 <= i < |apps| && apps[i].clientId == clientId && apps[i].date == r)
      && (forall i :: 0 <= i < |apps| && apps[i].clientId == clientId ==> LexLe(apps[i].date, r))
  {
    var sorted := LatestFirst(apps, clientId);
    if |sorted| > 0 then
      assert sorted[0] in apps;
      assert forall i :: 0 <= i < |apps| && apps[i].clientId == clientId ==> LexLe(apps[i].date, sorted[0].date) by {
        forall i | 0 <= i < |apps| && apps[i].clientId == clientId ensures LexLe(apps[i].date, sorted[0].date) {
          assert apps[i] in sorted;
          var j :| 0 <= j < |sorted| && sorted[j] == apps[i];
          if j == 0 {
            LexLeReflexive(apps[i].date);
          }
        }
      }
      sorted[0].date
    else
      assert forall i :: 0 <= i < |apps| ==> apps[i].clientId != clientId by {
        forall i | 0 <= i < |apps| ensures apps[i].clientId != clientId {
          assert apps[i] in apps;
        }
      }
      NoDate
  }

  /** The row shown for one client. */
  function RowOf(c: Client, apps: seq<Appointment>): ClientRow {
    ClientRow(c, LastDate(c.id, apps))
  }

  /** `c.name.toLowerCase().includes(search.toLowerCase())` */
  predicate NameMatches(c: Client, search: string) {
    Includes(Lower(c.name), Lower(search))
  }

  /** A search counts only when some of it is not whitespace (`search.trim()` is truthy). */
  predicate SearchActive(search: string) {
    Trim(search) != ""
  }

  /** One row per client, in the clients' order. */
  function Rows(clients: seq<Client>, apps: seq<Appointment>): (r: seq<ClientRow>)
    ensures |r| == |clients|
    ensures forall i :: 0 <= i < |clients| ==> r[i] == RowOf(clients[i], apps)
    ensures forall row :: row in r <==> exists i :: 0 <= i < |clients| && row == RowOf(clients[i], apps)
  {
    var r := seq(|clients|, i requires 0 <= i < |clients| => RowOf(clients[i], apps));
    assert forall i :: 0 <= i < |clients| ==> r[i] == RowOf(clients[i], apps);
    r
  }

  /** The rows the search keeps: all of them for a blank search, else those whose name matches. */
  function Matching(rows: seq<ClientRow>, search: string): (r: seq<ClientRow>)
    ensures !SearchActive(search) ==> r == rows
    ensures forall row :: row in r <==> row in rows && (SearchActive(search) ==> NameMatches(row.client, search))
    ensures forall row :: (multiset(r)[row] ==
      if SearchActive(search) ==> NameMatches(row.client, search) then multiset(rows)[row] else 0)
  {
    if SearchActive(search) then
      FilterCount(rows, (row: ClientRow) => NameMatches(row.client, search));
      Filter(rows, (row: ClientRow) => NameMatches(row.client, search))
    else rows
  }

  /** `filteredClients`: matching clients with their last visit, most recent visit first. */
  function FilteredClients(clients: seq<Client>, apps: seq<Appointment>, search: string): (r: seq<ClientRow>)
    ensures forall row :: row in r <==> Admitted(clients, apps, search, row)
    ensures !SearchActive(search) ==> |r| == |clients|
    ensures multiset(r) == multiset(Matching(Rows(clients, apps), search))
    ensures forall i, j :: 0 <= i < j < |r| ==> LexLe(r[j].lastDate, r[i].lastDate)
  {
    LaterVisitFirstOrder();
    var kept := Matching(Rows(clients, apps), search);
    var r := Sort(kept, LaterVisitFirst);
    SameElements(r, kept);
    KeptRows(clients, apps, search);
    SortedPairwise(r, LaterVisitFirst);
    assert forall i, j :: 0 <= i < j < |r| ==> LaterVisitFirst(r[i], r[j]);
    r
  }

  /** `row` is the row of a client the search admits. */
  predicate Admitted(clients: seq<Client>, apps: seq<Appointment>, search: string, row: ClientRow) {
    exists i :: 0 <= i < |clients| && row == RowOf(clients[i], apps)
      && (SearchActive(search) ==> NameMatches(clients[i], search))
  }

  /** The rows a search keeps are those of the clients it admits. */
  lemma KeptRows(clients: seq<Client>, apps: seq<Appointment>, search: string)
    ensures forall row :: row in Matching(Rows(clients, apps), search) <==> Admitted(clients, apps, search, row)
  {
  }

  /** A search of nothing but whitespace keeps every client. */
  lemma {:induction false} BlankSearchKeepsAll(clients: seq<Client>, apps: seq<Appointment>, search: string, i: int)
    requires AllWhitespace(search)
    requires 0 <= i < |clients|
    ensures RowOf(clients[i], apps) in FilteredClients(clients, apps, search)
  {
    TrimEmptyIffAllWhitespace(search);
  }

  /** Whether a search is blank does not depend on its case. */
  lemma {:induction false} SearchActiveIgnoresCase(s1: string, s2: string)
    requires EqualsIgnoreCase(s1, s2)
    ensures SearchActive(s1) <==> SearchActive(s2)
  {
    TrimEmptyIffAllWhitespace(s1);
    TrimEmptyIffAllWhitespace(s2);
    AllWhitespaceIgnoresCase(s1, s2);
  }

  /** The search ignores case: two searches that differ only in case list the same rows. */
  lemma {:induction false} SearchIgnoresCase(clients: seq<Client>, apps: seq<Appointment>, s1: string, s2: string)
    requires EqualsIgnoreCase(s1, s2)
    ensures forall row :: row in FilteredClients(clients, apps, s1) <==> row in FilteredClients(clients, apps, s2)
  {
    SearchActiveIgnoresCase(s1, s2);
    assert forall c :: NameMatches(c, s1) == NameMatches(c, s2);
  }

  // ---------------------------------------------------------------------------
  // One client's history
  // ---------------------------------------------------------------------------

  /** `clientAppointments`: nothing without a selected client, else their visits latest first. */
  function ClientAppointments(apps: seq<Appointment>, selected: Option<string>): (r: seq<Appointment>)
    ensures selected == None || selected == Some("") ==> r == []
    ensures selected.Some? && selected.value != "" ==>
      && (forall a :: a in r <==> a in apps && a.clientId == selected.value)
      && multiset(r) == multiset(Filter(apps, (a: Appointment) => a.clientId == selected.value))
      && (forall i, j :: 0 <= i < j < |r| ==> LexLe(r[j].date, r[i].date))
  {
    match selected
    case None => []
    case Some(id) => if id == "" then [] else LatestFirst(apps, id)
  }

  // ---------------------------------------------------------------------------
  // Opening and saving a note
  // ---------------------------------------------------------------------------

  /** The three text areas of the note editor. */
  datatype ReportForm = ReportForm(observations: string, evolution: string, conduct: string)

  /** The appointment whose note is being edited. */
  datatype EditTarget = EditTarget(appointmentId: string, clientId: string)

  const BlankForm: ReportForm := ReportForm("", "", "")

  /** `reports.find(r => r.appointmentId === appointmentId)`, as the index found. */
  function FindReport(reports: seq<SessionReport>, appointmentId: string): (r: Option<nat>)
    ensures r.Some? ==>
      && r.value < |reports| && reports[r.value].appointmentId == appointmentId
      && forall k :: 0 <= k < r.value ==> reports[k].appointmentId != appointmentId
    ensures r.None? <==> forall k :: 0 <= k < |reports| ==> reports[k].appointmentId != appointmentId
  {
    if |reports| == 0 then None
    else if reports[0].appointmentId == appointmentId then Some(0)
    else
      match FindReport(reports[1..], appointmentId)
      case None => None
      case Some(i) => Some(i + 1)
  }

  /** `openEditor(app)`: pre-fill from the appointment's note if there is one, blank otherwise. */
  function OpenEditor(reports: seq<SessionReport>, app: Appointment): (r: (ReportForm, EditTarget))
    ensures r.1 == EditTarget(app.id, app.clientId)
    ensures (forall k :: 0 <= k < |reports| ==> reports[k].appointmentId != app.id) ==> r.0 == BlankForm
    ensures forall k :: (0 <= k < |reports| && reports[k].appointmentId == app.id
      && (forall m :: 0 <= m < k ==> reports[m].appointmentId != app.id)) ==>
      r.0 == ReportForm(reports[k].observations, reports[k].evolution, reports[k].conduct)
  {
    var form := match FindReport(reports, app.id)
      case None => BlankForm
      case Some(i) => ReportForm(reports[i].observations, reports[i].evolution, reports[i].conduct);
    assert forall k :: (0 <= k < |reports| && reports[k].appointmentId == app.id
      && (forall m :: 0 <= m < k ==> reports[m].appointmentId != app.id)) ==> FindReport(reports, app.id) == Some(k);
    (form, EditTarget(app.id, app.clientId))
  }

  /** The note text: the three fields, one per line. */
  function Content(form: ReportForm): (r: string)
    ensures |r| == |form.observations| + |form.evolution| + |form.conduct| + 2
    ensures r[..|form.observations|] == form.observations && r[|form.observations|] == '\n'
    ensures r[|r| - |form.conduct|..] == form.conduct && r[|r| - |form.conduct| - 1] == '\n'
    ensures r[|form.observations| + 1..|r| - |form.conduct| - 1] == form.evolution
  {
    var r := form.observations + "\n" + form.evolution + "\n" + form.conduct;
    assert r[..|form.observations|] == form.observations;
    assert r[|r| - |form.conduct|..] == form.conduct;
    assert r[|form.observations| + 1..|r| - |form.conduct| - 1] == form.evolution;
    r
  }

  /** The position of the first line break in `s`, or `|s|` when there is none. */
  function FirstLineBreak(s: string): (n: nat)
    ensures n <= |s|
    ensures forall i :: 0 <= i < n ==> s[i] != '\n'
    ensures n < |s| ==> s[n] == '\n'
  {
    if |s| == 0 || s[0] == '\n' then 0 else 1 + FirstLineBreak(s[1..])
  }

  /**
   Reads a note text back as a form: the first line is the observations, the
   second the evolution, and everything after the second line break the
   conduct. A text with fewer than two line breaks is not a note.
   */
  function SplitContent(s: string): (r: Option<ReportForm>)
    ensures r.Some? ==> '\n' !in r.value.observations && '\n' !in r.value.evolution
    ensures r.None? <==> !exists i, k :: 0 <= i < k < |s| && s[i] == '\n' && s[k] == '\n'
  {
    var i := FirstLineBreak(s);
    if i == |s| then None
    else
      var j := FirstLineBreak(s[i + 1..]);
      if i + 1 + j == |s| then
        assert forall k :: i < k < |s| ==> s[k] == s[i + 1..][k - i - 1];
        None
      else
        assert s[i + 1 + j] == s[i + 1..][j];
        assert forall m :: 0 <= m < i ==> s[m] == s[..i][m];
        Some(ReportForm(s[..i], s[i + 1..i + 1 + j], s[i + 2 + j..]))
  }

  /** Whatever `SplitContent` reads from a text, written back as a note, is that text. */
  lemma {:induction false} SplitContentJoins(s: string)
    ensures SplitContent(s).Some? ==> Content(SplitContent(s).value) == s
  {
    var i := FirstLineBreak(s);
    if i < |s| {
      var j := FirstLineBreak(s[i + 1..]);
      if i + 1 + j < |s| {
        SplitAtBreaks(s, i, j);
        JoinLines(s, i, j);
      }
    }
  }

  /** Cutting a text at its first two line breaks and joining the pieces with line breaks gives it back. */
  lemma {:induction false} JoinLines(s: string, i: nat, j: nat)
    requires i + 1 + j < |s| && FirstLineBreak(s) == i && FirstLineBreak(s[i + 1..]) == j
    ensures Content(ReportForm(s[..i], s[i + 1..i + 1 + j], s[i + 2 + j..])) == s
  {
    assert s[i + 1 + j] == s[i + 1..][j];
    assert s == s[..i] + "\n" + s[i + 1..i + 1 + j] + "\n" + s[i + 2 + j..];
  }

  /** A line break with none before it is the first one. */
  lemma {:induction false} FirstLineBreakAt(s: string, n: nat)
    requires n < |s| && s[n] == '\n'
    requires forall m :: 0 <= m < n ==> s[m] != '\n'
    ensures FirstLineBreak(s) == n
  {
  }

  /** A text whose first two line breaks sit at `i` and `k` splits around them. */
  lemma {:induction false} SplitContentAt(s: string, i: nat, k: nat)
    requires i < k < |s| && s[i] == '\n' && s[k] == '\n'
    requires forall m :: 0 <= m < i ==> s[m] != '\n'
    requires forall m :: i < m < k ==> s[m] != '\n'
    ensures SplitContent(s) == Some(ReportForm(s[..i], s[i + 1..k], s[k + 1..]))
  {
    FirstLineBreakAt(s, i);
    var t := s[i + 1..];
    forall m | 0 <= m < k - i - 1 ensures t[m] != '\n' {
      assert t[m] == s[i + 1 + m];
    }
    FirstLineBreakAt(t, k - i - 1);
    SplitAtBreaks(s, i, k - i - 1);
  }

  /** `SplitContent` cuts at the first line break and at the first one after it. */
  lemma {:induction false} SplitAtBreaks(s: string, i: nat, j: nat)
    requires i + 1 + j < |s| && FirstLineBreak(s) == i && FirstLineBreak(s[i + 1..]) == j
    ensures SplitContent(s) == Some(ReportForm(s[..i], s[i + 1..i + 1 + j], s[i + 2 + j..]))
  {
  }

  /** Three lines joined by line breaks split back into those lines. */
  lemma {:induction false} SplitJoined(a: string, b: string, c: string)
    requires '\n' !in a && '\n' !in b
    ensures SplitContent(a + "\n" + b + "\n" + c) == Some(ReportForm(a, b, c))
  {
    var s := a + "\n" + b + "\n" + c;
    var k := |a| + 1 + |b|;
    assert s[..|a|] == a && s[|a| + 1..k] == b && s[k + 1..] == c;
    forall m | 0 <= m < |a| ensures s[m] != '\n' {
      assert s[m] == a[m] && a[m] in a;
    }
    forall m | |a| < m < k ensures s[m] != '\n' {
      assert s[m] == b[m - |a| - 1] && b[m - |a| - 1] in b;
    }
    SplitContentAt(s, |a|, k);
  }

  /**
   A note whose observations and evolution are single lines reads back as the
   form it was written from.
   */
  lemma {:induction false} ContentSplits(form: ReportForm)
    requires '\n' !in form.observations && '\n' !in form.evolution
    ensures SplitContent(Content(form)) == Some(form)
  {
    SplitJoined(form.observations, form.evolution, form.conduct);
  }

  /** `handleSave`: replace the edited appointment's note (if any) by the form's, placed last. */
  function HandleSave(reports: seq<SessionReport>, editing: Option<EditTarget>, form: ReportForm, nowIso: string)
    : (r: seq<SessionReport>)
    ensures editing.None? ==> r == reports
    ensures editing.Some? ==>
      var t := editing.value;
      && |r| > 0
      && r[|r| - 1] == SessionReport(t.appointmentId, t.appointmentId, t.clientId, Content(form), nowIso,
                                     form.observations, form.evolution, form.conduct)
      && (forall i :: 0 <= i < |r| - 1 ==> r[i].appointmentId != t.appointmentId)
      && IsSubsequence(r[..|r| - 1], reports)
      && (forall rep :: rep in reports && rep.appointmentId != t.appointmentId ==> rep in r[..|r| - 1])
      && r[..|r| - 1] == Filter(reports, (rep: SessionReport) => rep.appointmentId != t.appointmentId)
  {
    match editing
    case None => reports
    case Some(t) =>
      var others := Filter(reports, (rep: SessionReport) => rep.appointmentId != t.appointmentId);
      FilterIsSubsequence(reports, (rep: SessionReport) => rep.appointmentId != t.appointmentId);
      var saved := SessionReport(t.appointmentId, t.appointmentId, t.clientId, Content(form), nowIso,
                                 form.observations, form.evolution, form.conduct);
      var r := others + [saved];
      assert r[..|r| - 1] == others;
      assert forall i :: 0 <= i < |others| ==> others[i] in others;
      r
  }

  /** Saving keeps every note of another appointment, each as many times as it was stored. */
  lemma {:induction false} SaveKeepsOtherNotes(reports: seq<SessionReport>, t: EditTarget, form: ReportForm, nowIso: string)
    ensures var r := HandleSave(reports, Some(t), form, nowIso);
      forall rep: SessionReport :: rep.appointmentId != t.appointmentId ==> multiset(r)[rep] == multiset(reports)[rep]
  {
    var keep := (rep: SessionReport) => rep.appointmentId != t.appointmentId;
    var r := HandleSave(reports, Some(t), form, nowIso);
    FilterCount(reports, keep);
    assert r == r[..|r| - 1] + [r[|r| - 1]];
    assert multiset(r) == multiset(Filter(reports, keep)) + multiset{r[|r| - 1]};
  }

  /** No two notes belong to the same appointment. */
  predicate OnePerAppointment(reports: seq<SessionReport>) {
    forall i, j :: 0 <= i < j < |reports| ==> reports[i].appointmentId != reports[j].appointmentId
  }

  lemma {:induction false} FilterKeepsOnePerAppointment(reports: seq<SessionReport>, keep: SessionReport -> bool)
    requires OnePerAppointment(reports)
    ensures OnePerAppointment(Filter(reports, keep))
  {
    if |reports| > 0 {
      var rest := reports[1..];
      assert OnePerAppointment(rest) by {
        forall i, j | 0 <= i < j < |rest| ensures rest[i].appointmentId != rest[j].appointmentId {
          assert rest[i] == reports[i + 1] && rest[j] == reports[j + 1];
        }
      }
      FilterKeepsOnePerAppointment(rest, keep);
      var fr := Filter(rest, keep);
      if keep(reports[0]) {
        forall j | 0 <= j < |fr| ensures reports[0].appointmentId != fr[j].appointmentId {
          assert fr[j] in rest;
          var k :| 0 <= k < |rest| && rest[k] == fr[j];
          assert rest[k] == reports[k + 1];
        }
        var r := [reports[0]] + fr;
        forall i, j | 0 <= i < j < |r| ensures r[i].appointmentId != r[j].appointmentId {
          if i == 0 {
            assert r[j] == fr[j - 1];
          } else {
            assert r[i] == fr[i - 1] && r[j] == fr[j - 1];
          }
        }
      }
    }
  }

  /** Saving keeps at most one note per appointment. */
  lemma {:induction false} SaveKeepsOnePerAppointment(reports: seq<SessionReport>, editing: Option<EditTarget>,
                                                      form: ReportForm, nowIso: string)
    requires OnePerAppointment(reports)
    ensures OnePerAppointment(HandleSave(reports, editing, form, nowIso))
  {
    if editing.Some? {
      var t := editing.value;
      var keep := (rep: SessionReport) => rep.appointmentId != t.appointmentId;
      FilterKeepsOnePerAppointment(reports, keep);
      var r := HandleSave(reports, editing, form, nowIso);
      assert r[..|r| - 1] == Filter(reports, keep);
      forall i, j | 0 <= i < j < |r| ensures r[i].appointmentId != r[j].appointmentId {
        if j < |r| - 1 {
          assert r[i] == r[..|r| - 1][i] && r[j] == r[..|r| - 1][j];
        }
      }
    }
  }

  /** Reopening a saved note shows exactly what was saved. */
  lemma {:induction false} SaveThenOpen(reports: seq<SessionReport>, app: Appointment, form: ReportForm, nowIso: string)
    ensures var saved := HandleSave(reports, Some(EditTarget(app.id, app.clientId)), form, nowIso);
      OpenEditor(saved, app).0 == form
  {
    var saved := HandleSave(reports, Some(EditTarget(app.id, app.clientId)), form, nowIso);
    var k := |saved| - 1;
    assert saved[k].appointmentId == app.id;
  }

  /** Saving the same form twice is saving it once. */
  lemma {:induction false} SaveIdempotent(reports: seq<SessionReport>, t: EditTarget, form: ReportForm, nowIso: string)
    ensures HandleSave(HandleSave(reports, Some(t), form, nowIso), Some(t), form, nowIso)
         == HandleSave(reports, Some(t), form, nowIso)
  {
    var keep := (rep: SessionReport) => rep.appointmentId != t.appointmentId;
    var once := HandleSave(reports, Some(t), form, nowIso);
    var others := Filter(reports, keep);
    assert once == others + [once[|once| - 1]];
    FilterAppend(others, [once[|once| - 1]], keep);
    FilterIdempotent(reports, keep);
    assert Filter([once[|once| - 1]], keep) == [] by {
      assert [once[|once| - 1]][1..] == [];
    }
  }
}
