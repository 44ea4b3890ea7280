/**
 * The gateway's dataset download (supabase/functions/apify-gateway): pages inserted with "on conflict do nothing",
 * resumed after the last stored row, by any number of invocations that may overlap or die at any point.
 */
module Download {
  import opened Common

  datatype Row = Row(json: string)

  /** One job's `items`, by sequence number. */
  type Items = map<nat, Row>

  function Prefix(dataset: seq<Row>, n: nat): Items
    requires n <= |dataset|
  {
    map i: nat | i < n :: dataset[i]
  }

  /** The stored rows are exactly the first `n` rows of the dataset. */
  ghost predicate Stored(dataset: seq<Row>, items: Items, n: nat) {
    n <= |dataset| && items == Prefix(dataset, n)
  }

  ghost predicate GapFree(dataset: seq<Row>, items: Items) {
    exists n: nat :: Stored(dataset, items, n)
  }

  /** `coalesce(max(seq) + 1, 0)`. */
  ghost predicate IsNext(items: Items, next: nat) {
    && (next > 0 ==> next - 1 in items)
    && (forall i | i in items :: i < next)
  }

  /** A page's rows inserted from `offset`; a sequence number already stored keeps its row. */
  function Inserted(items: Items, offset: nat, page: seq<Row>): Items {
    if page == [] then items else
      var rest, at := Inserted(items, offset, page[..|page| - 1]), offset + |page| - 1;
      if at in rest then rest else rest[at := page[|page| - 1]]
  }

  /** Whatever else was stored meanwhile, a page read at or before the end leaves a prefix behind. */
  lemma {:induction false} PageExtendsThePrefix(dataset: seq<Row>, items: Items, n: nat, offset: nat, k: nat)
    requires Stored(dataset, items, n) && offset <= n && offset + k <= |dataset|
    ensures Stored(dataset, Inserted(items, offset, dataset[offset..offset + k]), if n < offset + k then offset + k else n)
    decreases k
  {
    if k > 0 {
      PageExtendsThePrefix(dataset, items, n, offset, k - 1);
      assert dataset[offset..offset + k][..k - 1] == dataset[offset..offset + k - 1];
    }
  }

  lemma NextIsTheLength(dataset: seq<Row>, items: Items, n: nat, next: nat)
    requires Stored(dataset, items, n) && IsNext(items, next)
    ensures next == n
  {
    if n > 0 { assert n - 1 in items; }
  }

  // ------------------------------------------------------------------------------------------
  // One invocation, among others
  // ------------------------------------------------------------------------------------------

  /** `downloaded n of m dataset rows; will retry`. */
  datatype Short = Short(downloaded: nat, expected: nat)

  class ItemsTable {
    var items: Items
    const dataset: seq<Row>

    constructor (dataset: seq<Row>)
      ensures this.dataset == dataset && items == map[]
    {
      this.dataset := dataset;
      items := map[];
    }

    method SelectNext() returns (next: nat)
      requires GapFree(dataset, items)
      ensures Stored(dataset, items, next)
    {
      ghost var n: nat :| Stored(dataset, items, n);
      next := |items|;
      PrefixSize(dataset, n);
    }

    /** Whatever other invocations store between two statements of this one. */
    method OthersInsert()
      requires GapFree(dataset, items)
      modifies this
      ensures GapFree(dataset, items) && |old(items)| <= |items|
    {
      ghost var m: nat :| Stored(dataset, items, m);
      PrefixSize(dataset, m);
      var n: nat :| |items| <= n <= |dataset|;
      items := Prefix(dataset, n);
      PrefixSize(dataset, n);
      assert Stored(dataset, items, n);
    }

    /** One page in one statement. */
    method StorePage(offset: nat, rows: nat)
      requires GapFree(dataset, items) && offset <= |items| && offset + rows <= |dataset|
      modifies this
      ensures GapFree(dataset, items) && |old(items)| <= |items| && offset + rows <= |items|
    {
      ghost var n: nat :| Stored(dataset, items, n);
      ghost var m := if n < offset + rows then offset + rows else n;
      PrefixSize(dataset, n);
      PageExtendsThePrefix(dataset, items, n, offset, rows);
      items := Inserted(items, offset, dataset[offset..offset + rows]);
      PrefixSize(dataset, m);
      assert Stored(dataset, items, m);
    }

    /**
     * The page loop. `served` says how many rows the provider answers each request with, short pages included;
     * `reported` is the dataset's own item count, if it states one.
     */
    method DownloadDataset(pageSize: nat, served: nat -> nat, reported: Option<nat>) returns (r: Result<nat, Short>)
      requires pageSize >= 1 && GapFree(dataset, items)
      modifies this
      ensures GapFree(dataset, items) && |old(items)| <= |items|
      ensures r.Ok? <==> reported.None? || reported.value <= Downloaded(r)
      ensures Downloaded(r) <= |items|
      ensures r.Ok? && reported == Some(|dataset|) ==> items == Prefix(dataset, |dataset|) && r.value == |dataset|
      ensures r.Err? ==> reported == Some(r.error.expected)
      ensures Ends(|dataset|, pageSize, served, |old(items)|, Downloaded(r))
      ensures (forall n :: served(n) >= pageSize) ==>
                && (r.Ok? <==> reported.None? || reported.value <= |dataset|)
                && (r.Ok? ==> r.value == |dataset| && items == Prefix(dataset, |dataset|))
    {
      ghost var start := |items|;
      var offset := ReadPages(pageSize, served);
      EndsWholeOrShort(|dataset|, pageSize, served, start, offset);
      WholeWhenFull(dataset, items);
      if offset < Expected(reported) { return Err(Short(offset, Expected(reported))); }
      r := Ok(offset);
    }

    /** From the row after the last one stored, until a page comes back short. */
    method ReadPages(pageSize: nat, served: nat -> nat) returns (offset: nat)
      requires pageSize >= 1 && GapFree(dataset, items)
      modifies this
      ensures GapFree(dataset, items) && |old(items)| <= |items| && offset <= |items|
      ensures Ends(|dataset|, pageSize, served, |old(items)|, offset)
    {
      offset := SelectNext();
      PrefixSize(dataset, offset);
      ghost var start := offset;
      var request, rows := 0, 0;
      while true
        invariant offset <= |items| && offset <= |dataset| && GapFree(dataset, items) && start <= |items|
        invariant FullPages(pageSize, served, start, request, offset)
        decreases |dataset| - offset
      {
        rows := ReadPage(offset, pageSize, served(request));
        OneMorePage(|dataset|, pageSize, served, start, request, offset, rows);
        offset, request := offset + rows, request + 1;
        if rows < pageSize { break; }
      }
    }

    /** One page, read and stored while others may store too. */
    method ReadPage(offset: nat, pageSize: nat, answered: nat) returns (rows: nat)
      requires GapFree(dataset, items) && offset <= |items| && offset <= |dataset|
      modifies this
      ensures GapFree(dataset, items) && |old(items)| <= |items| && offset + rows <= |items| && offset + rows <= |dataset|
      ensures rows == Least(answered, Least(pageSize, |dataset| - offset))
    {
      OthersInsert();
      rows := Least(answered, Least(pageSize, |dataset| - offset));
      StorePage(offset, rows);
    }
  }

  function Downloaded(r: Result<nat, Short>): nat {
    match r
    case Ok(rows) => rows
    case Err(short) => short.downloaded
  }

  /** Where request `n` reads from when all before it were answered with a full page. */
  ghost function PageStart(pageSize: nat, start: nat, n: nat): nat {
    if n == 0 then start else PageStart(pageSize, start, n - 1) + pageSize
  }

  /** The first `n` requests, made from `start`, were each answered with a full page. */
  ghost predicate FullPages(pageSize: nat, served: nat -> nat, start: nat, n: nat, offset: nat) {
    offset == PageStart(pageSize, start, n) && forall k: nat | k < n :: served(k) >= pageSize
  }

  /** Request `n` was the first answered short of a page, by the provider or at the end of the dataset. */
  ghost predicate EndsAfter(size: nat, pageSize: nat, served: nat -> nat, start: nat, n: nat, end: nat) {
    var offset := PageStart(pageSize, start, n);
    && FullPages(pageSize, served, start, n, offset)
    && offset <= end <= size && end - offset < pageSize && (end == size || end - offset == served(n))
  }

  ghost predicate Ends(size: nat, pageSize: nat, served: nat -> nat, start: nat, end: nat) {
    exists n :: EndsAfter(size, pageSize, served, start, n, end)
  }

  lemma OneMorePage(size: nat, pageSize: nat, served: nat -> nat, start: nat, n: nat, offset: nat, rows: nat)
    requires FullPages(pageSize, served, start, n, offset) && offset <= size
    requires rows == Least(served(n), Least(pageSize, size - offset))
    ensures rows < pageSize ==> Ends(size, pageSize, served, start, offset + rows)
    ensures rows >= pageSize ==> FullPages(pageSize, served, start, n + 1, offset + rows)
  {
    if rows < pageSize { assert EndsAfter(size, pageSize, served, start, n, offset + rows); }
  }

  /** The loop ends at the end of the dataset, or at a request answered with less than a page. */
  lemma EndsWholeOrShort(size: nat, pageSize: nat, served: nat -> nat, start: nat, end: nat)
    requires Ends(size, pageSize, served, start, end)
    ensures end == size || exists n :: served(n) < pageSize
  {
    var n: nat :| EndsAfter(size, pageSize, served, start, n, end);
    if end != size { assert served(n) < pageSize; }
  }

  /** A dataset that states no item count is expected to hold none. */
  function Expected(reported: Option<nat>): nat {
    if reported.Some? then reported.value else 0
  }

  lemma WholeWhenFull(dataset: seq<Row>, items: Items)
    requires GapFree(dataset, items)
    ensures |items| <= |dataset|
    ensures |items| == |dataset| ==> items == Prefix(dataset, |dataset|)
  {
    var n: nat :| Stored(dataset, items, n);
    PrefixSize(dataset, n);
  }

  function Least(a: nat, b: nat): nat {
    if a < b then a else b
  }

  lemma {:induction false} PrefixSize(dataset: seq<Row>, n: nat)
    requires n <= |dataset|
    ensures |Prefix(dataset, n)| == n
  {
    if n > 0 {
      PrefixSize(dataset, n - 1);
      assert Prefix(dataset, n) == Prefix(dataset, n - 1)[n - 1 := dataset[n - 1]];
    }
  }

  // ------------------------------------------------------------------------------------------
  // Any interleaving
  // ------------------------------------------------------------------------------------------

  /** Where one invocation is. */
  datatype Pc = Idle | Paging(offset: nat) | Counting(offset: nat) | Storing(itemCount: nat)

  /** What never changes: the finished run's dataset and the page size. */
  datatype World = World(dataset: seq<Row>, pageSize: nat)

  datatype State = State(items: Items, pcs: map<nat, Pc>, running: bool, itemCount: Option<nat>)

  function PcOf(s: State, i: nat): Pc {
    if i in s.pcs then s.pcs[i] else Idle
  }

  function Initial(): State {
    State(map[], map[], true, None)
  }

  /** Each atomic statement, and an invocation dying or giving up. */
  datatype Action =
    | Begin(next: nat)
    | Page(rows: nat)
    | Compare(reported: Option<nat>)
    | Store
    | Die

  ghost predicate Step(w: World, s: State, i: nat, a: Action, t: State) {
    match a
    case Begin(next) => PcOf(s, i).Idle? && IsNext(s.items, next) && t == s.(pcs := s.pcs[i := Paging(next)])
    case Page(rows) =>
      var pc := PcOf(s, i);
      && pc.Paging? && rows <= w.pageSize && pc.offset + rows <= |w.dataset|
      && t == s.(items := Inserted(s.items, pc.offset, w.dataset[pc.offset..pc.offset + rows]),
                 pcs := s.pcs[i := if rows < w.pageSize then Counting(pc.offset + rows) else Paging(pc.offset + rows)])
    case Compare(reported) =>
      var pc := PcOf(s, i);
      pc.Counting? && t == s.(pcs := s.pcs[i := if pc.offset < Expected(reported) then Idle else Storing(pc.offset)])
    case Store =>
      var pc := PcOf(s, i);
      && pc.Storing?
      && t == s.(pcs := s.pcs[i := Idle], running := false,
                 itemCount := if s.running then Some(pc.itemCount) else s.itemCount)
    case Die => t == s.(pcs := s.pcs[i := Idle])
  }

  ghost predicate Run(w: World, states: seq<State>, who: seq<nat>, actions: seq<Action>) {
    && |states| == |actions| + 1 && |who| == |actions| && states[0] == Initial()
    && forall k | 0 <= k < |actions| :: Step(w, states[k], who[k], actions[k], states[k + 1])
  }

  /** The offset an invocation has reached, with the rows before it stored. */
  ghost predicate PcBehind(pc: Pc, n: nat) {
    match pc
    case Idle => true
    case Paging(offset) => offset <= n
    case Counting(offset) => offset <= n
    case Storing(itemCount) => itemCount <= n
  }

  ghost predicate Inv(w: World, s: State, n: nat) {
    && Stored(w.dataset, s.items, n)
    && (forall i :: PcBehind(PcOf(s, i), n))
    && (s.itemCount.Some? ==> s.itemCount.value <= n)
    && (s.running <==> s.itemCount.None?)
  }

  lemma StepKeepsInv(w: World, s: State, i: nat, a: Action, t: State, n: nat) returns (m: nat)
    requires Inv(w, s, n) && Step(w, s, i, a, t)
    ensures n <= m && Inv(w, t, m)
  {
    m := n;
    assert PcBehind(PcOf(s, i), n);
    if a.Begin? {
      NextIsTheLength(w.dataset, s.items, n, a.next);
    } else if a.Page? {
      var offset := PcOf(s, i).offset;
      PageExtendsThePrefix(w.dataset, s.items, n, offset, a.rows);
      m := if n < offset + a.rows then offset + a.rows else n;
    }
    forall j ensures PcBehind(PcOf(t, j), m) {
      assert PcBehind(PcOf(s, j), n);
    }
  }

  /**
   * At every point of every interleaving, crashes included, the stored rows are exactly a gap-free prefix of the
   * dataset, and no invocation is past what is stored.
   */
  lemma {:induction false} RowsAreAlwaysAPrefix(w: World, states: seq<State>, who: seq<nat>, actions: seq<Action>)
    returns (n: nat)
    requires Run(w, states, who, actions)
    ensures Inv(w, states[|actions|], n)
    decreases |actions|
  {
    if actions == [] {
      n := 0;
      assert states[0].items == Prefix(w.dataset, 0);
    } else {
      var k := |actions| - 1;
      n := RowsAreAlwaysAPrefix(w, states[..k + 1], who[..k], actions[..k]);
      n := StepKeepsInv(w, states[k], who[k], actions[k], states[k + 1], n);
    }
  }

  /** Every item count the provider stated was `reported`. */
  ghost predicate Counted(actions: seq<Action>, reported: Option<nat>) {
    forall a | a in actions && a.Compare? :: a.reported == reported
  }

  ghost predicate CountsReached(s: State, expected: nat) {
    && (forall i :: PcOf(s, i).Storing? ==> expected <= PcOf(s, i).itemCount)
    && (s.itemCount.Some? ==> expected <= s.itemCount.value)
  }

  lemma {:induction false} StoringMeansCounted(w: World, states: seq<State>, who: seq<nat>, actions: seq<Action>,
      reported: Option<nat>)
    requires Run(w, states, who, actions) && Counted(actions, reported)
    ensures CountsReached(states[|actions|], Expected(reported))
    decreases |actions|
  {
    if actions != [] {
      var k := |actions| - 1;
      StoringMeansCounted(w, states[..k + 1], who[..k], actions[..k], reported);
      var s, i, t := states[k], who[k], states[k + 1];
      assert Step(w, s, i, actions[k], t);
      assert actions[k] in actions;
      forall j ensures PcOf(t, j).Storing? ==> Expected(reported) <= PcOf(t, j).itemCount {
        assert PcOf(s, j).Storing? ==> Expected(reported) <= PcOf(s, j).itemCount;
      }
    }
  }

  /** The run ends with the job out of `running`. */
  ghost predicate Finishes(w: World, states: seq<State>, who: seq<nat>, actions: seq<Action>, reported: Option<nat>) {
    Run(w, states, who, actions) && Counted(actions, reported) && !states[|actions|].running
  }

  /** A finished job recorded at least the stated count, and at least so many rows are stored, short pages or not. */
  lemma FinishedMeansCounted(w: World, states: seq<State>, who: seq<nat>, actions: seq<Action>, reported: Option<nat>)
    returns (n: nat)
    requires Finishes(w, states, who, actions, reported)
    ensures Stored(w.dataset, states[|actions|].items, n)
    ensures states[|actions|].itemCount.Some? && Expected(reported) <= states[|actions|].itemCount.value <= n
  {
    n := RowsAreAlwaysAPrefix(w, states, who, actions);
    StoringMeansCounted(w, states, who, actions, reported);
  }

  /** Any such run stores, and records, the whole dataset. */
  ghost predicate AlwaysWhole(w: World, reported: Option<nat>) {
    forall states: seq<State>, who: seq<nat>, actions: seq<Action> | Finishes(w, states, who, actions, reported) ::
      && states[|actions|].items == Prefix(w.dataset, |w.dataset|)
      && states[|actions|].itemCount == Some(|w.dataset|)
  }

  /** One invocation alone, at `pc` with the first `n` rows stored. */
  function Alone(w: World, n: nat, pc: Pc): State
    requires n <= |w.dataset|
  {
    State(Prefix(w.dataset, n), map[0 := pc], true, None)
  }

  /** A run and one step more. */
  lemma Then(w: World, states: seq<State>, who: seq<nat>, actions: seq<Action>, a: Action, t: State)
    returns (moreStates: seq<State>, moreWho: seq<nat>, moreActions: seq<Action>)
    requires Run(w, states, who, actions) && Step(w, states[|actions|], 0, a, t)
    ensures Run(w, moreStates, moreWho, moreActions)
    ensures moreActions == actions + [a] && moreStates[|moreActions|] == t
  {
    moreStates, moreWho, moreActions := states + [t], who + [0], actions + [a];
  }

  lemma PageAlone(w: World, n: nat, rows: nat)
    requires rows <= w.pageSize && n + rows <= |w.dataset|
    ensures Step(w, Alone(w, n, Paging(n)), 0, Page(rows),
                 Alone(w, n + rows, if rows < w.pageSize then Counting(n + rows) else Paging(n + rows)))
  {
    assert Stored(w.dataset, Prefix(w.dataset, n), n);
    PageExtendsThePrefix(w.dataset, Prefix(w.dataset, n), n, n, rows);
  }

  /** Full pages from the start, until `rows` is less than a page away. */
  lemma {:induction false} WholePages(w: World, rows: nat)
    returns (states: seq<State>, who: seq<nat>, actions: seq<Action>, n: nat)
    requires w.pageSize >= 1 && rows <= |w.dataset|
    ensures n <= rows < n + w.pageSize
    ensures Run(w, states, who, actions) && states[|actions|] == Alone(w, n, Paging(n))
    ensures forall a | a in actions :: !a.Compare?
    decreases rows
  {
    if rows < w.pageSize {
      n := 0;
      states, who, actions := [Initial(), Alone(w, 0, Paging(0))], [0], [Begin(0)];
      assert Prefix(w.dataset, 0) == map[] && Step(w, states[0], 0, Begin(0), states[1]);
    } else {
      states, who, actions, n := WholePages(w, rows - w.pageSize);
      PageAlone(w, n, w.pageSize);
      n := n + w.pageSize;
      states, who, actions := Then(w, states, who, actions, Page(w.pageSize), Alone(w, n, Paging(n)));
    }
  }

  /** Short of the whole dataset, any number of rows that reaches the stated count can be all a finished job has. */
  lemma FinishesWith(w: World, reported: Option<nat>, rows: nat)
    returns (states: seq<State>, who: seq<nat>, actions: seq<Action>)
    requires w.pageSize >= 1 && Expected(reported) <= rows < |w.dataset|
    ensures Finishes(w, states, who, actions, reported)
    ensures states[|actions|].items == Prefix(w.dataset, rows) && states[|actions|].itemCount == Some(rows)
  {
    var n: nat;
    states, who, actions, n := WholePages(w, rows);
    PageAlone(w, n, rows - n);
    states, who, actions := Then(w, states, who, actions, Page(rows - n), Alone(w, rows, Counting(rows)));
    states, who, actions := Then(w, states, who, actions, Compare(reported), Alone(w, rows, Storing(rows)));
    var finished := Alone(w, rows, Idle).(running := false, itemCount := Some(rows));
    states, who, actions := Then(w, states, who, actions, Store, finished);
  }

  /**
   * A run job leaves `running` only with the whole dataset stored if and only if the stated item count is not below the
   * dataset's size: the comparison after the last page is the only guard.
   */
  lemma FinishedMeansWholeExactly(w: World, reported: Option<nat>)
    requires w.pageSize >= 1
    ensures AlwaysWhole(w, reported) <==> w.dataset == [] || (reported.Some? && reported.value >= |w.dataset|)
  {
    if Expected(reported) >= |w.dataset| {
      forall states: seq<State>, who: seq<nat>, actions: seq<Action> | Finishes(w, states, who, actions, reported)
        ensures states[|actions|].items == Prefix(w.dataset, |w.dataset|)
        ensures states[|actions|].itemCount == Some(|w.dataset|)
      {
        var n := FinishedMeansCounted(w, states, who, actions, reported);
      }
    } else {
      var rows := |w.dataset| - 1;
      var states, who, actions := FinishesWith(w, reported, rows);
      assert states[|actions|].itemCount == Some(rows);
    }
  }
}
