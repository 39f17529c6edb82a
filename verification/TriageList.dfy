/**
  rca_agent/webapp/app.py, `list_tickets`, and the queries of rca_agent/webapp/db.py behind it:
  the Triage list, which a ticket never leaves once it has been on it.
 */
module TriageList {
  import opened Basics
  import opened Sorting
  import opened ReviewStore

  const TRIAGE_TYPES: set<string> := {"Bug", "Incident"}
  const CHUNK := 50

  /** One issue as Jira returns it. */
  datatype Hit = Hit(key: Key, created: int, itype: Option<string>, status: Option<string>, done: bool)

  datatype Listed = Listed(key: Key, row: Row)

  function HitFields(h: Hit): JiraFields {
    JiraFields(h.created, h.itype, h.status, h.done, h.itype.Some? && h.itype.value in TRIAGE_TYPES)
  }

  // --- syncing ---------------------------------------------------------------------------------------

  function SyncOne(rows: map<Key, Row>, h: Hit): map<Key, Row> {
    rows[h.key := if h.key in rows then Refreshed(rows[h.key], HitFields(h)) else NewRow(HitFields(h))]
  }

  function SyncAll(rows: map<Key, Row>, hits: seq<Hit>): map<Key, Row> {
    if hits == [] then rows else SyncOne(SyncAll(rows, hits[..|hits| - 1]), hits[|hits| - 1])
  }

  /** The synced rows by key, in the order the keys come up first. */
  function SyncDict(rows: map<Key, Row>, hits: seq<Hit>): Dict<Key, Row> {
    if hits == [] then EmptyDict()
    else
      var last := hits[|hits| - 1];
      SyncDict(rows, hits[..|hits| - 1]).Put(last.key, SyncAll(rows, hits)[last.key])
  }

  function HitKeys(hits: seq<Hit>): set<Key> {
    set h | h in hits :: h.key
  }

  /** Nothing is dropped, no creation date moves and no pin comes off. */
  ghost predicate Kept(before: map<Key, Row>, after: map<Key, Row>) {
    forall k :: k in before ==>
      k in after && after[k].created == before[k].created && (before[k].onDashboard ==> after[k].onDashboard)
  }

  lemma {:induction false} SyncKeeps(rows: map<Key, Row>, hits: seq<Hit>)
    ensures Kept(rows, SyncAll(rows, hits))
    decreases hits
  {
    if hits != [] { SyncKeeps(rows, hits[..|hits| - 1]); }
  }

  lemma {:induction false} SyncDictKeys(rows: map<Key, Row>, hits: seq<Hit>)
    ensures SyncDict(rows, hits).Valid()
    ensures forall k :: k in SyncDict(rows, hits).vals <==> k in HitKeys(hits)
    decreases hits
  {
    if hits != [] {
      var init, last := hits[..|hits| - 1], hits[|hits| - 1];
      SyncDictKeys(rows, init);
      SyncDict(rows, init).PutKeepsValid(last.key, SyncAll(rows, hits)[last.key]);
      assert hits == init + [last];
    }
  }

  /** What a sync answers for a key is the row as the whole batch leaves it. */
  lemma {:induction false} SyncDictRows(rows: map<Key, Row>, hits: seq<Hit>, k: Key)
    requires k in SyncDict(rows, hits).vals
    ensures k in SyncAll(rows, hits) && SyncDict(rows, hits).vals[k] == SyncAll(rows, hits)[k]
    decreases hits
  {
    if hits != [] && k != hits[|hits| - 1].key { SyncDictRows(rows, hits[..|hits| - 1], k); }
  }

  // --- the pinned tickets ----------------------------------------------------------------------------

  function CreatedDay(r: Row): int {
    r.created / DAY
  }

  predicate InRange(r: Row, fromDay: Option<int>, toDay: Option<int>) {
    && (fromDay.Some? ==> CreatedDay(r) >= fromDay.value)
    && (toDay.Some? ==> CreatedDay(r) <= toDay.value)
  }

  predicate Pinned(rows: map<Key, Row>, k: Key, fromDay: Option<int>, toDay: Option<int>) {
    k in rows && rows[k].onDashboard && LikeAut(k) && InRange(rows[k], fromDay, toDay)
  }

  predicate CreatedLater(a: Listed, b: Listed) {
    a.row.created > b.row.created
  }

  ghost predicate OncePerKey(ls: seq<Listed>) {
    forall i, j :: 0 <= i < j < |ls| ==> ls[i].key != ls[j].key
  }

  /** These are the pinned rows of the range, each once, newest first. */
  ghost predicate IsPinnedList(ls: seq<Listed>, rows: map<Key, Row>, fromDay: Option<int>, toDay: Option<int>) {
    && OncePerKey(ls) && Ordered(ls, CreatedLater)
    && forall l: Listed :: l in ls <==> Pinned(rows, l.key, fromDay, toDay) && l.row == rows[l.key]
  }

  lemma SortKeepsOnce(ls: seq<Listed>)
    requires OncePerKey(ls)
    ensures OncePerKey(StableSort(ls, CreatedLater)) && Ordered(StableSort(ls, CreatedLater), CreatedLater)
  {
    var t := StableSort(ls, CreatedLater);
    SortedMembers(ls, CreatedLater);
    SortedIsDistinct(ls, CreatedLater);
    SortOrders(ls, CreatedLater, l => false);
    forall i, j | 0 <= i < j < |t|
      ensures t[i].key != t[j].key
    {
      assert t[i] in ls && t[j] in ls;
    }
  }

  // --- the chunk loop ----------------------------------------------------------------------------------

  /** One search for up to fifty keys: nothing when it raised. */
  type Answer = Option<seq<Hit>>

  function FreshRows(store: map<Key, Row>, a: Answer): Dict<Key, Row> {
    if a.None? then EmptyDict() else SyncDict(store, a.value)
  }

  function StoreAfter(store: map<Key, Row>, a: Answer): map<Key, Row> {
    if a.None? then store else SyncAll(store, a.value)
  }

  /** The refreshed row when the search returned one, else the last known row. */
  function Shown(got: Dict<Key, Row>, t: Listed): Row {
    if t.key in got.vals then got.vals[t.key] else t.row
  }

  function WithChunk(acc: Dict<Key, Row>, chunk: seq<Listed>, got: Dict<Key, Row>): Dict<Key, Row> {
    if chunk == [] then acc
    else
      var last := chunk[|chunk| - 1];
      WithChunk(acc, chunk[..|chunk| - 1], got).Put(last.key, Shown(got, last))
  }

  function ChunkSize(extra: seq<Listed>): (n: nat)
    ensures n <= |extra| && (extra != [] ==> n > 0)
  {
    if |extra| < CHUNK then |extra| else CHUNK
  }

  /** The rows and the store once the remaining extras have been refreshed, chunk `c` next. */
  function Refresh(acc: Dict<Key, Row>, store: map<Key, Row>, extra: seq<Listed>, answers: nat -> Answer, c: nat)
    : (Dict<Key, Row>, map<Key, Row>)
    decreases |extra|
  {
    if extra == [] then (acc, store)
    else
      var n := ChunkSize(extra);
      Refresh(WithChunk(acc, extra[..n], FreshRows(store, answers(c))), StoreAfter(store, answers(c)),
              extra[n..], answers, c + 1)
  }

  lemma {:induction false} WithChunkKeys(acc: Dict<Key, Row>, chunk: seq<Listed>, got: Dict<Key, Row>)
    requires acc.Valid()
    ensures WithChunk(acc, chunk, got).Valid()
    ensures forall k :: k in WithChunk(acc, chunk, got).vals <==> k in acc.vals || exists t :: t in chunk && t.key == k
    decreases chunk
  {
    if chunk != [] {
      var init, last := chunk[..|chunk| - 1], chunk[|chunk| - 1];
      WithChunkKeys(acc, init, got);
      WithChunk(acc, init, got).PutKeepsValid(last.key, Shown(got, last));
      InitAndLast(chunk);
    }
  }

  /** The chunks cover all the extras, whatever Jira answers. */
  lemma {:induction false} RefreshCovers(acc: Dict<Key, Row>, store: map<Key, Row>, extra: seq<Listed>,
        answers: nat -> Answer, c: nat)
    requires acc.Valid()
    ensures Refresh(acc, store, extra, answers, c).0.Valid()
    ensures forall k :: k in Refresh(acc, store, extra, answers, c).0.vals <==>
              k in acc.vals || exists t :: t in extra && t.key == k
    ensures Kept(store, Refresh(acc, store, extra, answers, c).1)
    decreases |extra|
  {
    hide Kept, StoreAfter, FreshRows;
    if extra != [] {
      var n := ChunkSize(extra);
      var got := FreshRows(store, answers(c));
      var acc', store' := WithChunk(acc, extra[..n], got), StoreAfter(store, answers(c));
      WithChunkKeys(acc, extra[..n], got);
      AnswerKeeps(store, answers(c));
      RefreshCovers(acc', store', extra[n..], answers, c + 1);
      InTwoParts(extra, n);
      KeptOn(store, store', Refresh(acc', store', extra[n..], answers, c + 1).1);
    } else {
      KeptAsIs(store);
    }
  }

  lemma RefreshStep(acc: Dict<Key, Row>, store: map<Key, Row>, extra: seq<Listed>, answers: nat -> Answer, c: nat,
        n: nat, size: nat)
    requires n < |extra| && size == if |extra| - n < CHUNK then |extra| - n else CHUNK
    ensures Refresh(acc, store, extra[n..], answers, c) ==
      Refresh(WithChunk(acc, extra[n..n + size], FreshRows(store, answers(c))), StoreAfter(store, answers(c)),
              extra[n + size..], answers, c + 1)
  {
    hide WithChunk, FreshRows, StoreAfter;
    assert extra[n..][..size] == extra[n..n + size] && extra[n..][size..] == extra[n + size..];
  }

  lemma AnswerKeeps(store: map<Key, Row>, a: Answer)
    ensures Kept(store, StoreAfter(store, a))
  {
    if a.Some? { SyncKeeps(store, a.value); }
  }

  lemma KeptAsIs(rows: map<Key, Row>)
    ensures Kept(rows, rows)
  {
  }

  lemma KeptOn(a: map<Key, Row>, b: map<Key, Row>, c: map<Key, Row>)
    requires Kept(a, b) && Kept(b, c)
    ensures Kept(a, c)
  {
  }

  lemma {:induction false} WithChunkFrame(acc: Dict<Key, Row>, chunk: seq<Listed>, got: Dict<Key, Row>, k: Key)
    requires k in acc.vals && forall t :: t in chunk ==> t.key != k
    ensures k in WithChunk(acc, chunk, got).vals && WithChunk(acc, chunk, got).vals[k] == acc.vals[k]
    decreases chunk
  {
    if chunk != [] {
      WithChunkFrame(acc, chunk[..|chunk| - 1], got, k);
      assert chunk[|chunk| - 1] in chunk;
    }
  }

  lemma {:induction false} RefreshFrame(acc: Dict<Key, Row>, store: map<Key, Row>, extra: seq<Listed>,
        answers: nat -> Answer, c: nat, k: Key)
    requires k in acc.vals && forall t :: t in extra ==> t.key != k
    ensures var d := Refresh(acc, store, extra, answers, c).0; k in d.vals && d.vals[k] == acc.vals[k]
    decreases |extra|
  {
    if extra != [] {
      var n := ChunkSize(extra);
      var got := FreshRows(store, answers(c));
      assert extra == extra[..n] + extra[n..];
      WithChunkFrame(acc, extra[..n], got, k);
      RefreshFrame(WithChunk(acc, extra[..n], got), StoreAfter(store, answers(c)), extra[n..], answers, c + 1, k);
    }
  }

  lemma {:induction false} WithChunkShows(acc: Dict<Key, Row>, chunk: seq<Listed>, got: Dict<Key, Row>, i: nat)
    requires OncePerKey(chunk) && i < |chunk|
    ensures var d := WithChunk(acc, chunk, got); chunk[i].key in d.vals && d.vals[chunk[i].key] == Shown(got, chunk[i])
    decreases chunk
  {
    if i < |chunk| - 1 { WithChunkShows(acc, chunk[..|chunk| - 1], got, i); }
  }

  lemma ShownInItsChunk(acc: Dict<Key, Row>, store: map<Key, Row>, extra: seq<Listed>, answers: nat -> Answer,
        c: nat, i: nat)
    requires OncePerKey(extra) && i < ChunkSize(extra)
    ensures var d := Refresh(acc, store, extra, answers, c).0;
      extra[i].key in d.vals && d.vals[extra[i].key] == Shown(FreshRows(store, answers(c)), extra[i])
  {
    var n := ChunkSize(extra);
    var got := FreshRows(store, answers(c));
    assert extra[..n][i] == extra[i];
    WithChunkShows(acc, extra[..n], got, i);
    forall t | t in extra[n..]
      ensures t.key != extra[i].key
    {
      var j :| n <= j < |extra| && extra[j] == t;
    }
    RefreshFrame(WithChunk(acc, extra[..n], got), StoreAfter(store, answers(c)), extra[n..], answers, c + 1, extra[i].key);
  }

  /** The store once the answers from number `c` on have come in, `n` of them. */
  ghost function StoreFrom(store: map<Key, Row>, answers: nat -> Answer, c: nat, n: nat): map<Key, Row> {
    if n == 0 then store
    else
      var before := StoreFrom(store, answers, c, n - 1);
      if answers(c + n - 1).Some? then SyncAll(before, answers(c + n - 1).value) else before
  }

  lemma {:induction false} StoreFromLater(store: map<Key, Row>, answers: nat -> Answer, c: nat, n: nat)
    ensures StoreFrom(StoreAfter(store, answers(c)), answers, c + 1, n) == StoreFrom(store, answers, c, n + 1)
    decreases n
  {
    if n > 0 { StoreFromLater(store, answers, c, n - 1); }
  }

  /** `r` is the stored row when the answer `a` holds a hit of its key, and the row last known when it does not. */
  ghost predicate AsAnswered(r: Row, t: Listed, a: Answer, after: map<Key, Row>) {
    if a.Some? && exists h :: h in a.value && h.key == t.key then t.key in after && r == after[t.key] else r == t.row
  }

  /** The i-th extra is on the list, with the row that the search for its own fifty left it. */
  ghost predicate ExtraShown(list: seq<Listed>, extra: seq<Listed>, synced: map<Key, Row>, answers: nat -> Answer, i: nat)
    requires i < |extra|
  {
    exists l :: (
      && l in list && l.key == extra[i].key
      && AsAnswered(l.row, extra[i], answers(i / 50), StoreFrom(synced, answers, 0, i / 50 + 1)))
  }

  lemma ShownAsAnswered(store: map<Key, Row>, a: Answer, t: Listed)
    ensures AsAnswered(Shown(FreshRows(store, a), t), t, a, StoreAfter(store, a))
  {
    if a.Some? {
      SyncDictKeys(store, a.value);
      if t.key in SyncDict(store, a.value).vals { SyncDictRows(store, a.value, t.key); }
    }
  }

  /**
    The i-th extra is refreshed by the search for its own fifty: shown as that answer leaves it in
    the store, or as last known when the answer does not hold it.
   */
  lemma {:induction false} RefreshShows(acc: Dict<Key, Row>, store: map<Key, Row>, extra: seq<Listed>,
        answers: nat -> Answer, c: nat, i: nat)
    requires OncePerKey(extra) && i < |extra|
    ensures var d := Refresh(acc, store, extra, answers, c).0;
      extra[i].key in d.vals
      && AsAnswered(d.vals[extra[i].key], extra[i], answers(c + i / 50), StoreFrom(store, answers, c, i / 50 + 1))
    decreases |extra|
  {
    hide Shown, FreshRows, StoreAfter, WithChunk, SyncAll, AsAnswered;
    var n := ChunkSize(extra);
    if i < n {
      ShownInItsChunk(acc, store, extra, answers, c, i);
      ShownAsAnswered(store, answers(c), extra[i]);
      StoreFromLater(store, answers, c, 0);
    } else {
      var got := FreshRows(store, answers(c));
      assert extra[n..][i - n] == extra[i] && (i - 50) / 50 == i / 50 - 1;
      StoreFromLater(store, answers, c, i / 50);
      RefreshShows(WithChunk(acc, extra[..n], got), StoreAfter(store, answers(c)), extra[n..], answers, c + 1, i - n);
    }
  }

  /** When every refresh fails, the list shows the rows as last known. */
  lemma FailedRefreshShowsLastKnown(acc: Dict<Key, Row>, store: map<Key, Row>, extra: seq<Listed>,
        answers: nat -> Answer, c: nat, i: nat)
    requires OncePerKey(extra) && i < |extra| && forall n: nat :: answers(n).None?
    ensures var d := Refresh(acc, store, extra, answers, c).0;
      extra[i].key in d.vals && d.vals[extra[i].key] == extra[i].row
  {
    RefreshShows(acc, store, extra, answers, c, i);
  }

  /** A hit that is the last of its key in an answer: what is stored of it. */
  lemma {:induction false} SyncSets(rows: map<Key, Row>, hits: seq<Hit>, n: nat)
    requires n < |hits| && forall m :: n < m < |hits| ==> hits[m].key != hits[n].key
    ensures var h, after := hits[n], SyncAll(rows, hits);
      && h.key in after
      && (h.itype.Some? ==> after[h.key].issueType == h.itype)
      && (h.status.Some? ==> after[h.key].jiraStatus == h.status && after[h.key].jiraDone == h.done)
      && (h.itype == Some("Bug") || h.itype == Some("Incident") ==> after[h.key].onDashboard)
      && (h.key in rows ==> after[h.key].created == rows[h.key].created && after[h.key].status == rows[h.key].status
                            && after[h.key].verdict == rows[h.key].verdict)
      && (h.key !in rows ==> after[h.key].status == Pending && after[h.key].verdict == None
                             && after[h.key].autoRunAt == None && after[h.key].jobStatus == None)
    decreases hits
  {
    var m := |hits| - 1;
    if n < m {
      SyncSets(rows, hits[..m], n);
      assert hits[m].key != hits[n].key;
    } else {
      SyncLeaves(rows, hits[..m], hits[n].key);
      if hits[n].key !in rows { SyncBrings(rows, hits[..m], hits[n].key); }
    }
  }

  /** What a sync brings in is new: nobody has worked on it. */
  lemma {:induction false} SyncBrings(rows: map<Key, Row>, hits: seq<Hit>, k: Key)
    requires k !in rows
    ensures var after := SyncAll(rows, hits);
      k in after ==> after[k].status == Pending && after[k].verdict == None && after[k].autoRunAt == None
                     && after[k].jobStatus == None
    decreases hits
  {
    if hits != [] { SyncBrings(rows, hits[..|hits| - 1], k); }
  }

  /** A sync pins what is a Bug or an Incident, and takes no pin off. */
  lemma {:induction false} SyncPins(rows: map<Key, Row>, hits: seq<Hit>, k: Key)
    requires k in SyncAll(rows, hits)
    ensures SyncAll(rows, hits)[k].onDashboard <==>
      || (k in rows && rows[k].onDashboard)
      || exists h :: h in hits && h.key == k && (h.itype == Some("Bug") || h.itype == Some("Incident"))
    decreases hits
  {
    if hits != [] {
      var init, last := hits[..|hits| - 1], hits[|hits| - 1];
      InitAndLast(hits);
      if k in SyncAll(rows, init) {
        SyncPins(rows, init, k);
      } else {
        SyncKeeps(rows, init);
        assert last.key == k && k !in rows;
        forall h | h in init
          ensures h.key != k
        {
          SyncDictKeys(rows, init);
          if h.key == k {
            assert k in HitKeys(init);
            SyncDictRows(rows, init, k);
          }
        }
      }
    }
  }

  /** A sync touches no more than a ticket's type, its status on Jira and its pin. */
  lemma {:induction false} SyncLeaves(rows: map<Key, Row>, hits: seq<Hit>, k: Key)
    ensures k in rows ==>
      var after := SyncAll(rows, hits);
      && k in after && after[k].created == rows[k].created && after[k].status == rows[k].status
      && after[k].verdict == rows[k].verdict
      && ((forall h :: h in hits && h.key == k ==> h.itype == None) ==> after[k].issueType == rows[k].issueType)
      && ((forall h :: h in hits && h.key == k ==> h.status == None) ==>
            after[k].jiraStatus == rows[k].jiraStatus && after[k].jiraDone == rows[k].jiraDone)
    decreases hits
  {
    if hits != [] {
      InitAndLast(hits);
      SyncLeaves(rows, hits[..|hits| - 1], k);
    }
  }

  // --- the list ----------------------------------------------------------------------------------------

  /** What a successful list shows: Jira's hits and the pinned rows of the range. */
  predicate OnList(rows: map<Key, Row>, hits: seq<Hit>, fromDay: Option<int>, toDay: Option<int>, k: Key) {
    k in HitKeys(hits) || Pinned(SyncAll(rows, hits), k, fromDay, toDay)
  }

  /** The two ways onto the list. */
  lemma OnListIff(rows: map<Key, Row>, hits: seq<Hit>, fromDay: Option<int>, toDay: Option<int>, k: Key)
    ensures OnList(rows, hits, fromDay, toDay, k) <==>
      || (exists h :: h in hits && h.key == k)
      || (var synced := SyncAll(rows, hits);
          && k in synced && synced[k].onDashboard
          && |k| >= 4 && k[0] in "aA" && k[1] in "uU" && k[2] in "tT" && k[3] == '-'
          && (fromDay.Some? ==> fromDay.value * 86400 <= synced[k].created)
          && (toDay.Some? ==> synced[k].created < (toDay.value + 1) * 86400))
  {
  }

  function Values(d: Dict<Key, Row>): seq<Listed>
    requires d.Valid()
  {
    seq(|d.keys|, i requires 0 <= i < |d.keys| => Listed(d.keys[i], d.vals[d.keys[i]]))
  }

  lemma ValuesAre(d: Dict<Key, Row>, k: Key)
    requires d.Valid()
    ensures OncePerKey(Values(d))
    ensures (exists l :: l in Values(d) && l.key == k) <==> k in d.vals
  {
    if k in d.vals {
      var i :| 0 <= i < |d.keys| && d.keys[i] == k;
      assert Values(d)[i].key == k;
    }
  }

  // --- the period counter ----------------------------------------------------------------------------------

  datatype Period = Period(raised: int, accepted: int, rejected: int, unclear: int, noAction: int, notRun: int)

  predicate HasRca(r: Row) {
    r.verdict.Some? && r.verdict.value != ""
  }

  predicate AnyRow(r: Row) { true }
  predicate IsAccepted(r: Row) { r.status.Accepted? }
  predicate IsRejected(r: Row) { r.status.Rejected? }
  predicate IsUnclear(r: Row) { r.status.Unclear? }
  predicate AwaitsAction(r: Row) { HasRca(r) && !Decided(r.status) }
  predicate NeverRun(r: Row) { !HasRca(r) && !Decided(r.status) }

  /** `sum(p(r) for r in rows)` */
  function Count(ls: seq<Listed>, p: Row -> bool): nat {
    if ls == [] then 0 else Count(ls[..|ls| - 1], p) + if p(ls[|ls| - 1].row) then 1 else 0
  }

  function Counted(ls: seq<Listed>): Period {
    var a, r, u, n := Count(ls, IsAccepted), Count(ls, IsRejected), Count(ls, IsUnclear), Count(ls, AwaitsAction);
    Period(|ls|, a, r, u, n, |ls| - a - r - u - n)
  }

  /** The difference reported as `not_run` counts something: what is undecided and has no RCA. */
  lemma {:induction false} PeriodIsPartition(ls: seq<Listed>)
    ensures Counted(ls).notRun == Count(ls, NeverRun)
    decreases ls
  {
    if ls != [] { PeriodIsPartition(ls[..|ls| - 1]); }
  }

  lemma {:induction false} AllCount(ls: seq<Listed>)
    ensures Count(ls, AnyRow) == |ls|
    decreases ls
  {
    if ls != [] { AllCount(ls[..|ls| - 1]); }
  }

  /** The pinned tickets of a range whose rows have property `p`. */
  function PinnedWith(rows: map<Key, Row>, fromDay: Option<int>, toDay: Option<int>, p: Row -> bool): set<Key> {
    set k | k in rows && Pinned(rows, k, fromDay, toDay) && p(rows[k])
  }

  function KeysWith(ls: seq<Listed>, p: Row -> bool): set<Key> {
    set l | l in ls && p(l.row) :: l.key
  }

  lemma {:induction false} CountIsCard(ls: seq<Listed>, p: Row -> bool)
    requires OncePerKey(ls)
    ensures Count(ls, p) == |KeysWith(ls, p)|
    decreases ls
  {
    if ls != [] {
      var init, last := ls[..|ls| - 1], ls[|ls| - 1];
      CountIsCard(init, p);
      assert ls == init + [last];
      assert KeysWith(ls, p) == KeysWith(init, p) + if p(last.row) then {last.key} else {};
    }
  }

  lemma CountsTickets(ls: seq<Listed>, rows: map<Key, Row>, fromDay: Option<int>, toDay: Option<int>, p: Row -> bool)
    requires IsPinnedList(ls, rows, fromDay, toDay)
    ensures Count(ls, p) == |PinnedWith(rows, fromDay, toDay, p)|
  {
    CountIsCard(ls, p);
    forall k
      ensures k in KeysWith(ls, p) <==> k in PinnedWith(rows, fromDay, toDay, p)
    {
      if k in PinnedWith(rows, fromDay, toDay, p) { assert Listed(k, rows[k]) in ls; }
    }
    assert KeysWith(ls, p) == PinnedWith(rows, fromDay, toDay, p);
  }

  lemma PinnedSets(rows: map<Key, Row>, fromDay: Option<int>, toDay: Option<int>)
    ensures var raised := set k | k in rows && Pinned(rows, k, fromDay, toDay);
      && PinnedWith(rows, fromDay, toDay, AnyRow) == raised
      && PinnedWith(rows, fromDay, toDay, IsAccepted) == (set k | k in raised && rows[k].status == Accepted)
      && PinnedWith(rows, fromDay, toDay, IsRejected) == (set k | k in raised && rows[k].status == Rejected)
      && PinnedWith(rows, fromDay, toDay, IsUnclear) == (set k | k in raised && rows[k].status == Unclear)
      && PinnedWith(rows, fromDay, toDay, AwaitsAction)
         == (set k | k in raised && rows[k].verdict.Some? && rows[k].verdict != Some("")
                     && rows[k].status !in {Accepted, Rejected, Unclear})
      && PinnedWith(rows, fromDay, toDay, NeverRun)
         == (set k | k in raised && (rows[k].verdict.None? || rows[k].verdict == Some(""))
                     && rows[k].status !in {Accepted, Rejected, Unclear})
  {
  }

  // --- the handler -----------------------------------------------------------------------------------------

  function MissingFrom(d: Dict<Key, Row>): Listed -> bool {
    (t: Listed) => t.key !in d.vals
  }

  class Triage {
    const store: Store

    constructor (store: Store)
      ensures this.store == store
    {
      this.store := store;
    }

    method GetDashboardTickets(fromDay: Option<int>, toDay: Option<int>) returns (ls: seq<Listed>)
      ensures IsPinnedList(ls, store.rows, fromDay, toDay)
    {
      var left := set k | k in store.rows && Pinned(store.rows, k, fromDay, toDay);
      ls := [];
      ghost var done: set<Key> := {};
      while left != {}
        invariant OncePerKey(ls) && left !! done
        invariant forall k :: k in left || k in done <==> Pinned(store.rows, k, fromDay, toDay)
        invariant forall l: Listed :: l in ls <==> l.key in done && l.row == store.rows[l.key]
        decreases |left|
      {
        var k :| k in left;
        left, done := left - {k}, done + {k};
        ls := ls + [Listed(k, store.rows[k])];
      }
      SortKeepsOnce(ls);
      SortedMembers(ls, CreatedLater);
      ls := StableSort(ls, CreatedLater);
    }

    /** `{t["key"]: t for i in issues if (t := _sync_issue(i))}` */
    method SyncIssues(hits: seq<Hit>) returns (d: Dict<Key, Row>)
      modifies store
      ensures d == SyncDict(old(store.rows), hits) && store.rows == SyncAll(old(store.rows), hits)
    {
      ghost var rows := store.rows;
      d := EmptyDict();
      for i := 0 to |hits|
        invariant d == SyncDict(rows, hits[..i]) && store.rows == SyncAll(rows, hits[..i])
      {
        assert hits[..i + 1][..i] == hits[..i];
        store.UpsertTicket(hits[i].key, HitFields(hits[i]));
        var t := store.GetTicket(hits[i].key);
        d := d.Put(hits[i].key, t.value);
      }
      assert hits[..|hits|] == hits;
    }

    /** The chunk loop; answers what it makes of `acc` and of the store. */
    method RefreshExtras(acc: Dict<Key, Row>, extra: seq<Listed>, answers: nat -> Answer)
      returns (rows: Dict<Key, Row>)
      modifies store
      ensures (rows, store.rows) == Refresh(acc, old(store.rows), extra, answers, 0)
    {
      rows := acc;
      ghost var goal := Refresh(acc, store.rows, extra, answers, 0);
      var n, c := 0, 0;
      while n < |extra|
        invariant 0 <= n <= |extra| && 0 <= c
        invariant goal == Refresh(rows, store.rows, extra[n..], answers, c)
      {
        var size := if |extra| - n < CHUNK then |extra| - n else CHUNK;
        var chunk := extra[n..n + size];
        RefreshStep(rows, store.rows, extra, answers, c, n, size);
        hide Refresh;
        var got := EmptyDict();
        if answers(c).Some? { got := SyncIssues(answers(c).value); }
        rows := AddChunk(rows, chunk, got);
        n, c := n + size, c + 1;
      }
    }

    method AddChunk(acc: Dict<Key, Row>, chunk: seq<Listed>, got: Dict<Key, Row>) returns (rows: Dict<Key, Row>)
      ensures rows == WithChunk(acc, chunk, got)
    {
      rows := acc;
      for i := 0 to |chunk|
        invariant rows == WithChunk(acc, chunk[..i], got)
      {
        assert chunk[..i + 1][..i] == chunk[..i];
        rows := rows.Put(chunk[i].key, Shown(got, chunk[i]));
      }
      assert chunk[..|chunk|] == chunk;
    }

    /**
      The Triage list.  `hits` is Jira's answer to the range query, `None` when it raised;
      `answers(c)` its answer to the c-th chunk of pinned keys.
     */
    method ListTickets(fromDay: Option<int>, toDay: Option<int>, hits: Option<seq<Hit>>, answers: nat -> Answer)
      returns (list: Option<seq<Listed>>, ghost extra: seq<Listed>)
      modifies store
      ensures list.Some? <==> hits.Some?
      ensures list.None? ==> store.rows == old(store.rows)
      ensures Kept(old(store.rows), store.rows)
      ensures list.Some? ==>
        && OncePerKey(list.value)
        && (forall i, j :: 0 <= i < j < |list.value| ==> list.value[i].row.created >= list.value[j].row.created)
        && (forall k :: OnList(old(store.rows), hits.value, fromDay, toDay, k) <==> exists l :: l in list.value && l.key == k)
      ensures list.Some? ==>
        var synced := SyncAll(old(store.rows), hits.value);
        var acc := SyncDict(old(store.rows), hits.value);
        var end := Refresh(acc, synced, extra, answers, 0);
        && end.0.Valid() && list.value == StableSort(Values(end.0), CreatedLater) && store.rows == end.1
        && OncePerKey(extra)
        && (forall l: Listed :: l in extra <==>
              Pinned(synced, l.key, fromDay, toDay) && l.row == synced[l.key] && l.key !in HitKeys(hits.value))
      // row by row: Jira's hits as synced, every other pinned ticket as the search for its fifty left it
      ensures list.Some? ==>
        var synced := SyncAll(old(store.rows), hits.value);
        && (forall h :: h in hits.value ==>
              h.key in synced && exists l :: l in list.value && l.key == h.key && l.row == synced[h.key])
        && (forall i :: 0 <= i < |extra| ==> ExtraShown(list.value, extra, synced, answers, i))
    {
      hide Refresh, StableSort, Values, AsAnswered, StoreFrom, SyncAll, SyncDict;
      extra := [];
      if hits.None? {
        KeptAsIs(store.rows);
        return None, [];
      }
      ghost var before := store.rows;
      var rows := SyncIssues(hits.value);
      SyncKeeps(before, hits.value);
      SyncDictKeys(before, hits.value);
      var pinned := GetDashboardTickets(fromDay, toDay);
      var more := Where(pinned, MissingFrom(rows));
      extra := more;
      ghost var synced := store.rows;
      ExtrasAre(pinned, rows, synced, fromDay, toDay);
      RefreshCovers(rows, synced, more, answers, 0);
      rows := RefreshExtras(rows, more, answers);
      ShownOnce(rows);
      forall k
        ensures OnList(before, hits.value, fromDay, toDay, k)
           <==> exists l :: l in StableSort(Values(rows), CreatedLater) && l.key == k
      {
        ListedWhen(rows, k);
        if Pinned(synced, k, fromDay, toDay) && k !in HitKeys(hits.value) { assert Listed(k, synced[k]) in more; }
      }
      ListedRows(SyncDict(before, hits.value), synced, more, answers, rows);
      HitsListed(before, hits.value, more, answers, rows);
      list := Some(StableSort(Values(rows), CreatedLater));
    }

    /** The counts for the tickets raised in the period, which never starts before `start`. */
    method GetPeriodStats(start: int, fromDay: Option<int>, toDay: Option<int>) returns (p: Period)
      ensures p.raised == p.accepted + p.rejected + p.unclear + p.noAction + p.notRun
      ensures var first := Some(if fromDay.Some? && fromDay.value > start then fromDay.value else start);
        var rows := store.rows;
        var raised := set k | k in rows && Pinned(rows, k, first, toDay);
        && p.raised == |raised|
        && p.accepted == |set k | k in raised && rows[k].status == Accepted|
        && p.rejected == |set k | k in raised && rows[k].status == Rejected|
        && p.unclear == |set k | k in raised && rows[k].status == Unclear|
        && p.noAction == |set k | k in raised && rows[k].verdict.Some? && rows[k].verdict != Some("")
                                  && rows[k].status !in {Accepted, Rejected, Unclear}|
        && p.notRun == |set k | k in raised && (rows[k].verdict.None? || rows[k].verdict == Some(""))
                                && rows[k].status !in {Accepted, Rejected, Unclear}|
    {
      var first := Some(if fromDay.Some? && fromDay.value > start then fromDay.value else start);
      var rows := GetDashboardTickets(first, toDay);
      PeriodIsPartition(rows);
      AllCount(rows);
      CountsTickets(rows, store.rows, first, toDay, AnyRow);
      CountsTickets(rows, store.rows, first, toDay, IsAccepted);
      CountsTickets(rows, store.rows, first, toDay, IsRejected);
      CountsTickets(rows, store.rows, first, toDay, IsUnclear);
      CountsTickets(rows, store.rows, first, toDay, AwaitsAction);
      CountsTickets(rows, store.rows, first, toDay, NeverRun);
      PinnedSets(store.rows, first, toDay);
      p := Counted(rows);
    }
  }

  lemma {:induction false} StillOnce(ls: seq<Listed>, p: Listed -> bool)
    requires OncePerKey(ls)
    ensures OncePerKey(Where(ls, p))
    decreases ls
  {
    if ls != [] {
      StillOnce(ls[1..], p);
      forall l | l in Where(ls[1..], p)
        ensures l.key != ls[0].key
      {
        WhereFinds(ls[1..], p, l);
      }
    }
  }

  lemma ExtrasAre(pinned: seq<Listed>, d: Dict<Key, Row>, rows: map<Key, Row>, fromDay: Option<int>, toDay: Option<int>)
    requires IsPinnedList(pinned, rows, fromDay, toDay)
    ensures forall l: Listed :: l in Where(pinned, MissingFrom(d)) <==>
              Pinned(rows, l.key, fromDay, toDay) && l.row == rows[l.key] && l.key !in d.vals
    ensures OncePerKey(Where(pinned, MissingFrom(d)))
  {
    StillOnce(pinned, MissingFrom(d));
    forall l: Listed
      ensures l in Where(pinned, MissingFrom(d)) <==> l in pinned && l.key !in d.vals
    {
      WhereFinds(pinned, MissingFrom(d), l);
    }
  }

  lemma ShownOnce(d: Dict<Key, Row>)
    requires d.Valid()
    ensures OncePerKey(StableSort(Values(d), CreatedLater)) && Ordered(StableSort(Values(d), CreatedLater), CreatedLater)
  {
    ValuesAre(d, "");
    SortKeepsOnce(Values(d));
  }

  lemma ListedWhen(d: Dict<Key, Row>, k: Key)
    requires d.Valid()
    ensures (exists l :: l in StableSort(Values(d), CreatedLater) && l.key == k) <==> k in d.vals
  {
    ValuesAre(d, k);
    SortedMembers(Values(d), CreatedLater);
  }

  lemma RowListed(d: Dict<Key, Row>, k: Key)
    requires d.Valid() && k in d.vals
    ensures Listed(k, d.vals[k]) in StableSort(Values(d), CreatedLater)
  {
    SortedMembers(Values(d), CreatedLater);
    var i :| 0 <= i < |d.keys| && d.keys[i] == k;
    assert Values(d)[i] == Listed(k, d.vals[k]);
  }

  lemma ListedRows(acc: Dict<Key, Row>, synced: map<Key, Row>, extra: seq<Listed>, answers: nat -> Answer,
        rows: Dict<Key, Row>)
    requires rows.Valid() && OncePerKey(extra) && rows == Refresh(acc, synced, extra, answers, 0).0
    ensures forall i :: 0 <= i < |extra| ==>
      ExtraShown(StableSort(Values(rows), CreatedLater), extra, synced, answers, i)
  {
    hide StableSort, Values, StoreFrom, AsAnswered, Refresh, OncePerKey;
    forall i | 0 <= i < |extra|
      ensures ExtraShown(StableSort(Values(rows), CreatedLater), extra, synced, answers, i)
    {
      RefreshShows(acc, synced, extra, answers, 0, i);
      RowListed(rows, extra[i].key);
      var l := Listed(extra[i].key, rows.vals[extra[i].key]);
      assert l.key == extra[i].key;
    }
  }

  lemma HitsListed(before: map<Key, Row>, hits: seq<Hit>, extra: seq<Listed>, answers: nat -> Answer,
        rows: Dict<Key, Row>)
    requires rows.Valid() && (forall t :: t in extra ==> t.key !in HitKeys(hits))
    requires rows == Refresh(SyncDict(before, hits), SyncAll(before, hits), extra, answers, 0).0
    ensures forall h :: h in hits ==>
      h.key in SyncAll(before, hits)
      && exists l :: l in StableSort(Values(rows), CreatedLater) && l.key == h.key && l.row == SyncAll(before, hits)[h.key]
  {
    hide StableSort, Values, Refresh;
    forall h | h in hits
      ensures h.key in SyncAll(before, hits)
        && exists l :: l in StableSort(Values(rows), CreatedLater) && l.key == h.key && l.row == SyncAll(before, hits)[h.key]
    {
      SyncDictKeys(before, hits);
      assert h.key in HitKeys(hits);
      SyncDictRows(before, hits, h.key);
      RefreshFrame(SyncDict(before, hits), SyncAll(before, hits), extra, answers, 0, h.key);
      RowListed(rows, h.key);
      var l := Listed(h.key, rows.vals[h.key]);
      assert l.key == h.key;
    }
  }

  // --- over whole runs -----------------------------------------------------------------------------------

  /** Everything that writes the `reviews` table. */
  datatype Write =
    | Sync(hit: Hit)
    | SyncUnpinned(key: Key, fields: JiraFields)
    | Save(key: Key, verdict: Verdict)
    | Fail(key: Key, error: string)
    | ClaimManual(key: Key)
    | ClaimAuto(key: Key, now: int)
    | BeginJob(key: Key, kind: JobKind)
    | EndJob(key: Key, outcome: JobStatus)
    | AutoPosted(key: Key, id: CommentId)
    | AutoPostFailed(key: Key, error: string)
    | AutoCleared(key: Key)
    | Decide(key: Key, status: Status, comment: Option<CommentId>)
    | Reset(key: Key)
    | Restart

  function RowWritten(r: Row, w: Write): Row
    requires !w.Sync? && !w.SyncUnpinned? && !w.Restart?
  {
    match w
    case Save(_, v) => SavedRca(r, v)
    case Fail(_, e) => FailedRun(r, e)
    case ClaimManual(_) => if r.status.Running? then r else ClaimedManual(r)
    case ClaimAuto(_, now) => if AutoClaimable(r) then ClaimedAuto(r, now) else r
    case BeginJob(_, kind) => if r.jobStatus == Some(JobRunning) then r else StartedJob(r, kind)
    case EndJob(_, outcome) => r.(jobStatus := Some(outcome))
    case AutoPosted(_, id) => WithAutoComment(r, id)
    case AutoPostFailed(_, e) => r.(autoPostError := Some(e))
    case AutoCleared(_) => WithoutAutoComment(r)
    case Decide(_, s, c) => DecidedRow(r, s, c)
    case Reset(_) => ResetRow(r)
  }

  function Written(rows: map<Key, Row>, w: Write): map<Key, Row> {
    match w
    case Sync(h) => SyncOne(rows, h)
    case SyncUnpinned(k, f) => rows[k := if k in rows then Refreshed(rows[k], f) else NewRow(f)]
    case Restart => map k | k in rows :: Recovered(k, rows[k])
    case _ => if w.key in rows then rows[w.key := RowWritten(rows[w.key], w)] else rows
  }

  /** Each of them is a call of the store. */
  method Perform(store: Store, w: Write)
    requires w.Decide? ==> Decided(w.status)
    modifies store
    ensures store.rows == Written(old(store.rows), w)
  {
    match w {
      case Sync(h) => store.UpsertTicket(h.key, HitFields(h));
      case SyncUnpinned(k, f) => store.UpsertTicket(k, f);
      case Save(k, v) => store.SaveRca(k, v);
      case Fail(k, e) => store.MarkFailed(k, e);
      case ClaimManual(k) => var _ := store.ClaimRunning(k);
      case ClaimAuto(k, now) => var _ := store.ClaimAutoRun(k, now);
      case BeginJob(k, kind) => var _ := store.StartJob(k, kind);
      case EndJob(k, outcome) => store.EndJob(k, outcome);
      case AutoPosted(k, id) => store.SetAutoComment(k, id);
      case AutoPostFailed(k, e) => store.SetAutoPostError(k, e);
      case AutoCleared(k) => store.ClearAutoComment(k);
      case Decide(k, s, c) => store.MarkDecided(k, s, c);
      case Reset(k) => store.Reset(k);
      case Restart => store.InitDb();
    }
  }

  function AllWritten(rows: map<Key, Row>, ws: seq<Write>): map<Key, Row> {
    if ws == [] then rows else Written(AllWritten(rows, ws[..|ws| - 1]), ws[|ws| - 1])
  }

  lemma WriteKeeps(rows: map<Key, Row>, w: Write)
    ensures Kept(rows, Written(rows, w))
  {
  }

  lemma {:induction false} WritesKeep(rows: map<Key, Row>, ws: seq<Write>)
    ensures Kept(rows, AllWritten(rows, ws))
    decreases ws
  {
    if ws == [] {
      KeptAsIs(rows);
    } else {
      var before, w := AllWritten(rows, ws[..|ws| - 1]), ws[|ws| - 1];
      WritesKeep(rows, ws[..|ws| - 1]);
      WriteKeeps(before, w);
      KeptOn(rows, before, Written(before, w));
    }
  }

  /**
    Stickiness: a ticket synced once as a Bug or an Incident is on every later successful list
    whose range covers its stored creation date, whatever was written in between and whatever
    type or status Jira gives it since.
   */
  lemma StaysOnTheList(rows: map<Key, Row>, h: Hit, ws: seq<Write>, hits: seq<Hit>, fromDay: Option<int>,
        toDay: Option<int>)
    requires LikeAut(h.key) && h.itype.Some? && h.itype.value in TRIAGE_TYPES
    ensures var first, now := SyncOne(rows, h), AllWritten(SyncOne(rows, h), ws);
      && h.key in now && now[h.key].created == first[h.key].created
      && (InRange(first[h.key], fromDay, toDay) ==> OnList(now, hits, fromDay, toDay, h.key))
  {
    var first := SyncOne(rows, h);
    WritesKeep(first, ws);
    SyncKeeps(AllWritten(first, ws), hits);
  }
}
