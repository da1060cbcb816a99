/** The sponsors' resume browser: the page of users it shows, the set of
    selected user keys that survives paging, the filter lists behind the
    year and skill checkboxes, and the colour of each row. */
module Resumes {
  import opened Wrappers
  import opened Text
  import opened UserModel
  import opened RecordStore
  import opened Listing

  /** A listed user with the state of its checkbox. */
  datatype Row = Row(user: User, checked: bool)

  /** The controller's scope. `totalSize` is `None` when it is NaN. */
  datatype Browser = Browser(
    rows: seq<Row>,
    currentPage: nat,
    pageSize: nat,
    totalSize: Option<int>,
    pages: seq<nat>,
    selected: set<string>,
    selectedGrad: seq<string>,
    selectedSkills: seq<string>)

  /** What `updatePage` does with a response: shows it, never returns
      (the page loop runs to Infinity), or throws on an entry that is only
      a key. */
  datatype Update = Shown(browser: Browser) | Loops | Throws

  // ---------------------------------------------------------------------
  // User keys
  // ---------------------------------------------------------------------

  /** `val.substring(0, val.indexOf('_'))` and
      `val.substring(val.indexOf('_') + 1)`: the id before the first
      underscore, and the rest. */
  function SplitKey(key: string): (r: (string, string))
    ensures '_' !in r.0
    ensures '_' in key ==> key == r.0 + "_" + r.1
    ensures '_' !in key ==> r == ("", key)
  {
    IndexOfChar(key, '_');
    var i := IndexOf(key, "_");
    assert i >= 0 ==> key == key[..i] + "_" + key[i + 1..];
    assert key[0..|key|] == key;
    (Substring(key, 0, i), Substring(key, i + 1, |key|))
  }

  /** The download splits a key back into the user's id, and the names,
      whenever the id holds no underscore (an ObjectId never does). */
  lemma {:induction false} KeySplitRoundTrip(u: User)
    requires '_' !in u.id
    ensures SplitKey(UserKey(u)) == (u.id, u.profile.lastName + "_" + u.profile.firstName)
  {
    var key := UserKey(u);
    var rest := u.profile.lastName + "_" + u.profile.firstName;
    assert key == u.id + "_" + rest;
    IndexOfChar(key, '_');
    var i := IndexOf(key, "_");
    assert key[|u.id|] == '_';
    assert i >= 0;
    assert forall j :: 0 <= j < |u.id| ==> key[j] == u.id[j];
    assert i == |u.id|;
    assert key[..i] == u.id;
    assert key[i + 1..] == rest;
  }

  // ---------------------------------------------------------------------
  // Showing a page
  // ---------------------------------------------------------------------

  /** `totalSize`: the row count on a one-page listing, otherwise the size
      of all pages but the last. */
  function TotalSize(rows: nat, size: nat, totalPages: TotalPages): Option<int> {
    match totalPages
    case Pages(n) => if n == 1 then Some(rows) else Some(size * (n - 1))
    case _ => None
  }

  /** `hasMatchingResumes`. */
  predicate HasMatchingResumes(totalSize: Option<int>) {
    totalSize.Some? && totalSize.value > 0
  }

  /** `updatePage`: shows the response, lists the page numbers, and ticks
      every row whose key is selected. */
  method UpdatePage(b: Browser, data: PageResult) returns (r: Update)
    ensures data.totalPages.Infinity? <==> r.Loops?
    ensures r.Throws? <==> !data.totalPages.Infinity? && exists i :: 0 <= i < |data.users| && data.users[i].Key?
    ensures r.Shown? ==>
      && |r.browser.rows| == |data.users|
      && (forall i :: 0 <= i < |data.users| ==>
            && data.users[i] == Record(r.browser.rows[i].user)
            && (r.browser.rows[i].checked <==> UserKey(r.browser.rows[i].user) in b.selected))
      && r.browser.currentPage == data.page
      && r.browser.pageSize == data.size
      && r.browser.totalSize == TotalSize(|data.users|, data.size, data.totalPages)
      && (data.totalPages.Pages? ==>
            |r.browser.pages| == data.totalPages.n && forall i :: 0 <= i < |r.browser.pages| ==> r.browser.pages[i] == i)
      && (data.totalPages.NaN? ==> r.browser.pages == [])
      && r.browser.selected == b.selected
      && r.browser.selectedGrad == b.selectedGrad
      && r.browser.selectedSkills == b.selectedSkills
  {
    if data.totalPages.Infinity? {
      return Loops;
    }
    var n := if data.totalPages.Pages? then data.totalPages.n else 0;
    var pages: seq<nat> := [];
    var i := 0;
    while i < n
      invariant 0 <= i <= n
      invariant |pages| == i
      invariant forall j :: 0 <= j < i ==> pages[j] == j
    {
      pages := pages + [i];
      i := i + 1;
    }
    var rows: seq<Row> := [];
    var k := 0;
    while k < |data.users|
      invariant 0 <= k <= |data.users|
      invariant |rows| == k
      invariant forall j :: 0 <= j < k ==>
        && data.users[j] == Record(rows[j].user)
        && (rows[j].checked <==> UserKey(rows[j].user) in b.selected)
    {
      match data.users[k]
      case Key(_) =>
        return Throws;
      case Record(u) =>
        rows := rows + [Row(u, UserKey(u) in b.selected)];
      k := k + 1;
    }
    var total := TotalSize(|data.users|, data.size, data.totalPages);
    return Shown(Browser(rows, data.page, data.size, total, pages, b.selected, b.selectedGrad, b.selectedSkills));
  }

  /** With `count` matches and the first page holding `min(size, count)`
      rows, `totalSize` is positive exactly when something matches. */
  lemma TotalSizePositive(count: nat, size: nat, rows: nat)
    requires size > 0
    requires rows == if count <= size then count else size
    ensures HasMatchingResumes(TotalSize(rows, size, Pages(CeilDiv(count, size)))) <==> count > 0
  {
    var n := CeilDiv(count, size);
    SomePageIffMatch(count, size);
    if n == 1 {
      assert count <= size;
    } else if n >= 2 {
      MulMono(n - 1, 1, size);
    }
  }

  /** On the first page of a listing with a positive page size, the browser
      reports matching resumes exactly when some record matches the filter. */
  lemma MatchingResumesIffMatches(st: Store, q: PageQuery, re: string -> bool)
    requires q.size > 0 && q.page == 0
    ensures var d := GetPage(st, q, re);
            HasMatchingResumes(TotalSize(|d.users|, d.size, d.totalPages)) <==> |PageIds(st, q, re)| > 0
  {
    var selected := PageIds(st, q, re);
    var d := GetPage(st, q, re);
    assert q.page * q.size == 0;
    var first := ListPage(st, selected, 0, q.size, false);
    assert d.users == first;
    assert |first| == if |selected| <= q.size then |selected| else q.size;
    TotalSizePositive(|selected|, q.size, |first|);
  }

  // ---------------------------------------------------------------------
  // Selection
  // ---------------------------------------------------------------------

  /** `updateCheckedCount`: a ticked row adds its key when the user has an
      id, an unticked row removes it; no other key changes. */
  function UpdateCheckedCount(selected: set<string>, row: Row): (r: set<string>)
    ensures UserKey(row.user) in r <==> row.checked && (row.user.id != "" || UserKey(row.user) in selected)
    ensures forall k :: k != UserKey(row.user) ==> (k in r <==> k in selected)
  {
    if row.checked then
      if row.user.id != "" then selected + {UserKey(row.user)} else selected
    else
      selected - {UserKey(row.user)}
  }

  /** Ticking and then unticking a row leaves the selection as it was,
      less that row's key. */
  lemma TickUntick(selected: set<string>, u: User)
    ensures UpdateCheckedCount(UpdateCheckedCount(selected, Row(u, true)), Row(u, false)) == selected - {UserKey(u)}
  {
  }

  /** `selectAllResumesOnCurrPage`: every row ticked and every row's key
      selected. */
  method SelectAllResumesOnCurrPage(b: Browser) returns (r: Browser)
    ensures |r.rows| == |b.rows|
    ensures forall i :: 0 <= i < |b.rows| ==> r.rows[i] == Row(b.rows[i].user, true)
    ensures forall k :: k in r.selected <==> k in b.selected || exists i :: 0 <= i < |b.rows| && UserKey(b.rows[i].user) == k
    ensures |b.rows| > 0 ==> HasSelectedResumes(r)
    ensures r == b.(rows := r.rows, selected := r.selected)
  {
    var rows: seq<Row> := [];
    var selected := b.selected;
    var i := 0;
    while i < |b.rows|
      invariant 0 <= i <= |b.rows|
      invariant |rows| == i
      invariant forall j :: 0 <= j < i ==> rows[j] == Row(b.rows[j].user, true)
      invariant forall k :: k in selected <==> k in b.selected || exists j :: 0 <= j < i && UserKey(b.rows[j].user) == k
    {
      rows := rows + [Row(b.rows[i].user, true)];
      selected := selected + {UserKey(b.rows[i].user)};
      i := i + 1;
    }
    r := b.(rows := rows, selected := selected);
    if |b.rows| > 0 {
      assert UserKey(b.rows[0].user) in r.selected;
    }
  }

  /** `deselectAllResumes`: every row unticked and nothing selected. */
  function DeselectAllResumes(b: Browser): (r: Browser)
    ensures !HasSelectedResumes(r)
    ensures |r.rows| == |b.rows|
    ensures forall i :: 0 <= i < |b.rows| ==> r.rows[i].user == b.rows[i].user && !r.rows[i].checked
    ensures r == b.(rows := r.rows, selected := r.selected)
  {
    b.(rows := seq(|b.rows|, i requires 0 <= i < |b.rows| => Row(b.rows[i].user, false)), selected := {})
  }

  /** `hasSelectedResumes`. */
  predicate HasSelectedResumes(b: Browser) {
    |b.selected| > 0
  }

  // ---------------------------------------------------------------------
  // Year and skill filters
  // ---------------------------------------------------------------------

  /** The graduation terms offered as checkboxes. */
  const GradChoices: seq<string> :=
    ["Fall 2020", "Spring 2021", "Fall 2021", "Spring 2022", "Fall 2022", "Spring 2023", "Fall 2023"]

  /** `xs.filter(x => x !== v)`. */
  function Without(xs: seq<string>, v: string): (r: seq<string>)
    ensures v !in r
    ensures forall w :: w != v ==> multiset(r)[w] == multiset(xs)[w]
    ensures |r| <= |xs|
  {
    if |xs| == 0 then []
    else
      assert xs == [xs[0]] + xs[1..];
      if xs[0] == v then Without(xs[1..], v) else [xs[0]] + Without(xs[1..], v)
  }

  lemma {:induction false} WithoutAppend(xs: seq<string>, ys: seq<string>, v: string)
    ensures Without(xs + ys, v) == Without(xs, v) + Without(ys, v)
  {
    if |xs| > 0 {
      assert (xs + ys)[1..] == xs[1..] + ys;
      WithoutAppend(xs[1..], ys, v);
    } else {
      assert xs + ys == ys;
    }
  }

  lemma {:induction false} WithoutAbsent(xs: seq<string>, v: string)
    requires v !in xs
    ensures Without(xs, v) == xs
  {
    if |xs| > 0 {
      WithoutAbsent(xs[1..], v);
      assert xs == [xs[0]] + xs[1..];
    }
  }

  /** `onSelectYear` / `onSelectSkill`: a ticked choice is appended, an
      unticked one removed everywhere. */
  function ToggleChoice(xs: seq<string>, value: string, ticked: bool): (r: seq<string>)
    ensures ticked ==> |r| == |xs| + 1 && r[..|xs|] == xs && r[|xs|] == value
    ensures !ticked ==> value !in r && forall w :: w != value ==> multiset(r)[w] == multiset(xs)[w]
  {
    if ticked then xs + [value] else Without(xs, value)
  }

  /** Ticking and unticking a choice that was not selected restores the
      list. */
  lemma TickUntickChoice(xs: seq<string>, value: string)
    requires value !in xs
    ensures ToggleChoice(ToggleChoice(xs, value, true), value, false) == xs
  {
    WithoutAppend(xs, [value], value);
    WithoutAbsent(xs, value);
    assert Without([value], value) == [];
  }

  /** The browser sends the selected terms joined with commas and the
      server splits them again, so the graduation clause of the filter
      accepts exactly the selected terms. */
  lemma GradFilterIsSelection(u: User, q: PageQuery, re: string -> bool, selectedGrad: seq<string>)
    requires |selectedGrad| > 0
    requires forall i :: 0 <= i < |selectedGrad| ==> ',' !in selectedGrad[i]
    requires q.grad == Join(selectedGrad, ',') && |q.grad| > 0
    ensures u.profile.graduationTime in Split(q.grad, ',') <==> u.profile.graduationTime in selectedGrad
  {
    SplitJoin(selectedGrad, ',');
  }

  // ---------------------------------------------------------------------
  // Row colour
  // ---------------------------------------------------------------------

  datatype RowClass = AdminRow | PositiveRow | WarningRow | NoClass

  /** `rowClass`: admins first, then confirmed, then admitted. */
  function RowClassOf(u: User): (c: RowClass)
    ensures c == AdminRow <==> u.admin
  {
    if u.admin then AdminRow
    else if u.status.confirmed then PositiveRow
    else if u.status.admitted && !u.status.confirmed then WarningRow
    else NoClass
  }

  /** For a non-admin who has neither checked in nor declined, a green row
      is a "confirmed" status and a yellow row an "admitted" one. */
  lemma RowClassMatchesStatus(u: User)
    requires !u.admin && !u.status.checkedIn && !u.status.declined
    ensures RowClassOf(u) == PositiveRow <==> StatusNameOf(u) == ConfirmedName
    ensures RowClassOf(u) == WarningRow <==> StatusNameOf(u) == AdmittedName
  {
  }
}
