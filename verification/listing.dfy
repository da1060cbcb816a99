/** The admin and sponsor listings: a compound filter, a sort by
    `profile.name`, `skip(page * size).limit(size)` and a page count. */
module Listing {
  import opened Wrappers
  import opened Text
  import opened UserModel
  import opened RecordStore

  /** The query string of `getPage`, already parsed. */
  datatype PageQuery = PageQuery(
    page: nat,
    size: nat,
    text: string,
    grad: string,
    skills: string,
    usStudent: string,
    resume: string)

  /** `Math.ceil(count / size)`: a whole number, or Infinity / NaN when the
      size is 0. */
  datatype TotalPages = Pages(n: nat) | Infinity | NaN

  /** A listed user: the full record, or only its key in id-only mode. */
  datatype Entry = Record(user: User) | Key(key: string)

  datatype PageResult = PageResult(users: seq<Entry>, page: nat, size: nat, totalPages: TotalPages)

  predicate IsHexDigit(c: char) {
    '0' <= c <= '9' || 'a' <= c <= 'f' || 'A' <= c <= 'F'
  }

  /** `/^[0-9a-fA-F]{24}$/`: the text could be an ObjectId. */
  predicate IsObjectIdHex(s: string) {
    |s| == 24 && forall i :: 0 <= i < |s| ==> IsHexDigit(s[i])
  }

  /** The free-text clauses, OR-ed: `re` is the case-insensitive RegExp
      built from the text; a missing team code matches nothing. */
  predicate TextMatches(u: User, text: string, re: string -> bool) {
    || re(u.email)
    || re(u.profile.name)
    || (u.teamCode.Some? && re(u.teamCode.value))
    || (IsObjectIdHex(text) && u.id == text)
  }

  /** The AND of the clauses `getPage` adds for each non-empty parameter. */
  predicate PageFilter(u: User, q: PageQuery, re: string -> bool) {
    && (|q.text| > 0 ==> TextMatches(u, q.text, re))
    && (|q.grad| > 0 ==> u.profile.graduationTime in Split(q.grad, ','))
    && (|q.skills| > 0 ==> exists i :: 0 <= i < |u.profile.skills| && u.profile.skills[i] in Split(q.skills, ','))
    && (q.usStudent == "true" ==> u.profile.usStudent)
    && (q.resume == "true" ==> u.profile.resume)
  }

  // ---------------------------------------------------------------------
  // Ordering by name
  // ---------------------------------------------------------------------

  /** Lexicographic order on character codes. */
  predicate NameLe(a: string, b: string) {
    if |a| == 0 then true
    else if |b| == 0 then false
    else if a[0] != b[0] then a[0] < b[0]
    else NameLe(a[1..], b[1..])
  }

  lemma {:induction false} NameLeTotal(a: string, b: string)
    ensures NameLe(a, b) || NameLe(b, a)
  {
    if |a| > 0 && |b| > 0 && a[0] == b[0] {
      NameLeTotal(a[1..], b[1..]);
    }
  }

  function Name(st: Store, k: Id): string {
    if k in st then st[k].profile.name else ""
  }

  /** Each listed id's name is at most the next one's. */
  predicate SortedByName(st: Store, ids: seq<Id>) {
    forall i :: 0 < i < |ids| ==> NameLe(Name(st, ids[i - 1]), Name(st, ids[i]))
  }

  function Insert(st: Store, k: Id, ids: seq<Id>): (r: seq<Id>)
    ensures multiset(r) == multiset(ids) + multiset{k}
    ensures |r| > 0 && (r[0] == k || (|ids| > 0 && r[0] == ids[0]))
    ensures SortedByName(st, ids) ==> SortedByName(st, r)
  {
    if |ids| == 0 then [k]
    else if NameLe(Name(st, k), Name(st, ids[0])) then [k] + ids
    else
      var rest := Insert(st, k, ids[1..]);
      assert ids == [ids[0]] + ids[1..];
      NameLeTotal(Name(st, k), Name(st, ids[0]));
      [ids[0]] + rest
  }

  /** A stable insertion sort by name. */
  function SortByName(st: Store, ids: seq<Id>): (r: seq<Id>)
    ensures multiset(r) == multiset(ids)
    ensures SortedByName(st, r)
  {
    if |ids| == 0 then []
    else
      assert ids == [ids[0]] + ids[1..];
      Insert(st, ids[0], SortByName(st, ids[1..]))
  }

  /** Some enumeration of a finite set of ids. */
  ghost function Enumerate(s: set<Id>): (r: seq<Id>)
    ensures multiset(r) == multiset(s)
    decreases |s|
  {
    if s == {} then []
    else
      var x :| x in s;
      var rest := Enumerate(s - {x});
      assert multiset(s) == multiset(s - {x}) + multiset{x};
      [x] + rest
  }

  // ---------------------------------------------------------------------
  // Pages
  // ---------------------------------------------------------------------

  /** `Math.ceil(count / size)` for a positive size, characterised as the
      least number of pages that holds `count` entries. */
  function CeilDiv(count: nat, size: nat): (n: nat)
    requires size > 0
    ensures n * size >= count
    ensures n == 0 || (n - 1) * size < count
  {
    (count + size - 1) / size
  }

  function PageCount(count: nat, size: nat): TotalPages {
    if size > 0 then Pages(CeilDiv(count, size))
    else if count > 0 then Infinity
    else NaN
  }

  /** `skip(skip).limit(limit)`, where `limit(0)` means no limit. */
  function Window(ids: seq<Id>, skip: nat, limit: nat): (w: seq<Id>)
    ensures limit > 0 ==> |w| <= limit
    ensures skip <= |ids| ==> |w| <= |ids| - skip
    ensures skip <= |ids| ==> forall i :: 0 <= i < |w| ==> w[i] == ids[skip + i]
    ensures skip >= |ids| ==> w == []
    ensures limit == 0 && skip == 0 ==> w == ids
    ensures limit > 0 && skip <= |ids| ==> |w| == if skip + limit <= |ids| then limit else |ids| - skip
  {
    var from := if skip <= |ids| then skip else |ids|;
    if limit == 0 then ids[from..]
    else
      var to := if from + limit <= |ids| then from + limit else |ids|;
      ids[from..to]
  }

  function Entries(st: Store, ids: seq<Id>, keysOnly: bool): (r: seq<Entry>)
    requires forall i :: 0 <= i < |ids| ==> ids[i] in st
    ensures |r| == |ids|
    ensures forall i :: 0 <= i < |ids| ==> r[i] == if keysOnly then Key(UserKey(st[ids[i]])) else Record(st[ids[i]])
  {
    if |ids| == 0 then []
    else [if keysOnly then Key(UserKey(st[ids[0]])) else Record(st[ids[0]])] + Entries(st, ids[1..], keysOnly)
  }

  /** The ids a filter selects, in listing order. */
  ghost function Listed(st: Store, selected: set<Id>): (r: seq<Id>)
    requires selected <= st.Keys
    ensures multiset(r) == multiset(selected)
    ensures SortedByName(st, r)
    ensures forall i :: 0 <= i < |r| ==> r[i] in selected
    ensures |r| == |selected|
  {
    var r := SortByName(st, Enumerate(selected));
    assert forall i :: 0 <= i < |r| ==> r[i] in selected by {
      forall i | 0 <= i < |r| ensures r[i] in selected {
        assert r[i] in multiset(r);
      }
    }
    assert |r| == |multiset(r)| == |multiset(selected)| == |selected|;
    r
  }

  ghost function PageIds(st: Store, q: PageQuery, re: string -> bool): set<Id> {
    set k | k in st && PageFilter(st[k], q, re)
  }

  /** One page of the records in `selected`, listed by name: `skip`
      entries are passed over and at most `limit` taken (`limit` 0: all). */
  ghost function ListPage(st: Store, selected: set<Id>, skip: nat, limit: nat, keysOnly: bool): (r: seq<Entry>)
    requires selected <= st.Keys
    ensures limit > 0 ==> |r| <= limit
    ensures var listed := Listed(st, selected);
            skip <= |listed| ==>
            && |r| <= |listed| - skip
            && forall i :: 0 <= i < |r| ==>
                 r[i] == if keysOnly then Key(UserKey(st[listed[skip + i]])) else Record(st[listed[skip + i]])
    ensures skip >= |selected| ==> r == []
    ensures limit > 0 && skip <= |selected| ==> |r| == if skip + limit <= |selected| then limit else |selected| - skip
    ensures limit == 0 && skip == 0 ==> |r| == |selected|
  {
    var listed := Listed(st, selected);
    var w := Window(listed, skip, limit);
    assert forall i :: 0 <= i < |w| ==> w[i] in st by {
      forall i | 0 <= i < |w| ensures w[i] in st {
        assert w[i] == listed[skip + i];
      }
    }
    Entries(st, w, keysOnly)
  }

  /** Outside id-only mode a page holds records of the selection only. */
  lemma MatchesListed(st: Store, selected: set<Id>, skip: nat, limit: nat, keysOnly: bool)
    requires selected <= st.Keys
    ensures !keysOnly ==>
      forall i :: 0 <= i < |ListPage(st, selected, skip, limit, keysOnly)| ==>
        exists k :: k in selected && ListPage(st, selected, skip, limit, keysOnly)[i] == Record(st[k])
  {
    var listed := Listed(st, selected);
    var r := ListPage(st, selected, skip, limit, keysOnly);
    if !keysOnly && skip <= |listed| {
      forall i | 0 <= i < |r| ensures exists k :: k in selected && r[i] == Record(st[k]) {
        assert r[i] == Record(st[listed[skip + i]]);
      }
    }
  }

  /** `users` is the window of `listed` that starts at `skip` and holds
      `size` records, cut short at the end of the listing and empty past
      it. */
  ghost predicate IsWindow(st: Store, listed: seq<Id>, skip: nat, size: nat, users: seq<Entry>)
    requires forall i :: 0 <= i < |listed| ==> listed[i] in st
  {
    && (skip <= |listed| ==>
        && |users| == (if skip + size <= |listed| then size else |listed| - skip)
        && forall i :: 0 <= i < |users| ==> users[i] == Record(st[listed[skip + i]]))
    && (skip >= |listed| ==> users == [])
  }

  /** A page of positive size is the window of the listing at `skip`. */
  lemma PageWindow(st: Store, selected: set<Id>, skip: nat, size: nat)
    requires selected <= st.Keys && size > 0
    ensures IsWindow(st, Listed(st, selected), skip, size, ListPage(st, selected, skip, size, false))
  {
  }

  /** `getPage`: the filtered records sorted by name, page `page` of size
      `size` (the `page * size` first are skipped and `size` taken); with
      size 0 and page 0 only their keys. */
  ghost function GetPage(st: Store, q: PageQuery, re: string -> bool): (r: PageResult)
    ensures r.page == q.page && r.size == q.size
    ensures q.size > 0 ==> |r.users| <= q.size && r.totalPages == Pages(CeilDiv(|PageIds(st, q, re)|, q.size))
    ensures q.size == 0 ==> r.totalPages == if |PageIds(st, q, re)| > 0 then Infinity else NaN
    ensures q.size > 0 ==> IsWindow(st, Listed(st, PageIds(st, q, re)), q.page * q.size, q.size, r.users)
    ensures !(q.size == 0 && q.page == 0) ==>
      forall i :: 0 <= i < |r.users| ==> r.users[i].Record? && r.users[i].user in st.Values
                                         && PageFilter(r.users[i].user, q, re)
  {
    var selected := PageIds(st, q, re);
    if q.size == 0 && q.page == 0 then
      PageResult(ListPage(st, selected, 0, 0, true), q.page, q.size, PageCount(|selected|, q.size))
    else
      var users := ListPage(st, selected, q.page * q.size, q.size, false);
      MatchesListed(st, selected, q.page * q.size, q.size, false);
      if q.size > 0 then
        PageWindow(st, selected, q.page * q.size, q.size);
        PageResult(users, q.page, q.size, PageCount(|selected|, q.size))
      else
        PageResult(users, q.page, q.size, PageCount(|selected|, q.size))
  }

  /** With a positive size there is at least one page exactly when
      something matches. */
  lemma SomePageIffMatch(count: nat, size: nat)
    requires size > 0
    ensures CeilDiv(count, size) >= 1 <==> count >= 1
  {
  }

  lemma DivMod(i: nat, size: nat)
    requires size > 0
    ensures (i / size) * size + i % size == i && 0 <= i % size < size
  {
  }

  lemma {:induction false} MulMono(a: nat, b: nat, c: nat)
    requires a >= b
    ensures a * c >= b * c
    decreases a - b
  {
    if a > b {
      MulMono(a - 1, b, c);
    }
  }

  lemma EntryAt(st: Store, selected: set<Id>, skip: nat, size: nat, off: nat)
    requires selected <= st.Keys && off < size && skip + off < |selected|
    ensures off < |ListPage(st, selected, skip, size, false)|
    ensures ListPage(st, selected, skip, size, false)[off] == Record(st[Listed(st, selected)[skip + off]])
  {
  }

  /** Every listed record appears on page `i / size` at position
      `i % size`; this holds for both `getPage` and `getSponsorPage`. */
  lemma PageOfIndex(st: Store, selected: set<Id>, size: nat, i: nat)
    requires selected <= st.Keys && size > 0 && i < |selected|
    ensures i % size < |ListPage(st, selected, (i / size) * size, size, false)|
    ensures ListPage(st, selected, (i / size) * size, size, false)[i % size] == Record(st[Listed(st, selected)[i]])
  {
    var pg, off := i / size, i % size;
    DivMod(i, size);
    var skip := pg * size;
    assert skip + off == i && off < size;
    EntryAt(st, selected, skip, size, off);
  }

  /** Pages from `CeilDiv(count, size)` on are empty. */
  lemma PagesPastEndEmpty(st: Store, selected: set<Id>, size: nat, page: nat)
    requires selected <= st.Keys && size > 0 && page >= CeilDiv(|selected|, size)
    ensures ListPage(st, selected, page * size, size, false) == []
  {
    MulMono(page, CeilDiv(|selected|, size), size);
  }

  /** In id-only mode the listing is exactly the keys of all matches, in
      name order. */
  lemma KeysOnlyListsAllMatches(st: Store, q: PageQuery, re: string -> bool)
    requires q.size == 0 && q.page == 0
    ensures var listed := Listed(st, PageIds(st, q, re));
            var r := GetPage(st, q, re);
            |r.users| == |listed| && forall i :: 0 <= i < |listed| ==> r.users[i] == Key(UserKey(st[listed[i]]))
  {
    var selected := PageIds(st, q, re);
    var r := ListPage(st, selected, 0, 0, true);
    assert |r| == |selected|;
  }

  // ---------------------------------------------------------------------
  // Sponsor listing
  // ---------------------------------------------------------------------

  /** `getSponsorPage` ORs `sponsor: true` with the text clauses. */
  predicate SponsorFilter(u: User, text: string, re: string -> bool) {
    u.sponsor || (|text| > 0 && TextMatches(u, text, re))
  }

  ghost function SponsorPageIds(st: Store, text: string, re: string -> bool): set<Id> {
    set k | k in st && SponsorFilter(st[k], text, re)
  }

  /** `getSponsorPage`: like `getPage`, always with full records. */
  ghost function GetSponsorPage(st: Store, page: nat, size: nat, text: string, re: string -> bool): (r: PageResult)
    ensures r.page == page && r.size == size
    ensures size > 0 ==> |r.users| <= size && r.totalPages == Pages(CeilDiv(|SponsorPageIds(st, text, re)|, size))
    ensures size == 0 ==> r.totalPages == if |SponsorPageIds(st, text, re)| > 0 then Infinity else NaN
    ensures size > 0 ==> IsWindow(st, Listed(st, SponsorPageIds(st, text, re)), page * size, size, r.users)
    ensures forall i :: 0 <= i < |r.users| ==> r.users[i].Record? && r.users[i].user in st.Values
                                               && SponsorFilter(r.users[i].user, text, re)
  {
    var selected := SponsorPageIds(st, text, re);
    var users := ListPage(st, selected, page * size, size, false);
    MatchesListed(st, selected, page * size, size, false);
    if size > 0 then
      PageWindow(st, selected, page * size, size);
      PageResult(users, page, size, PageCount(|selected|, size))
    else
      PageResult(users, page, size, PageCount(|selected|, size))
  }

  /** Empty text lists exactly the sponsors; other text adds every record
      the text matches, sponsor or not. */
  lemma SponsorPageSelection(st: Store, text: string, re: string -> bool)
    ensures text == "" ==> SponsorPageIds(st, text, re) == set k | k in st && st[k].sponsor
    ensures text != "" ==>
      SponsorPageIds(st, text, re)
      == (set k | k in st && st[k].sponsor) + (set k | k in st && TextMatches(st[k], text, re))
  {
  }
}
