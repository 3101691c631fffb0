/**
 * The contents of a memory-hook list as a sequence: what searching it and inserting into it do,
 * and how both differ from the discipline the list is documented to have.
 */
module HookLists {
  import opened Bytes

  // A hook is one member of a C union of function pointers; NoHook is the null pointer.
  datatype Hook =
    | NoHook
    | ReadHook(read: word -> byte)
    | WriteHook(write: (word, byte) -> byte)
    | TranslHook(transl: word -> word)

  // The hook applies to the half-open address range [start, end).
  datatype Mapping = Mapping(start: word, end: word, hook: Hook)

  predicate Covers(m: Mapping, addr: word) {
    m.start <= addr < m.end
  }

  // One list for each kind of hook.
  datatype Hooks = Hooks(onRead: seq<Mapping>, onWrite: seq<Mapping>, onTransl: seq<Mapping>)

  /** The hook of the first mapping that covers the address. */
  function Lookup(list: seq<Mapping>, addr: word): Hook {
    if list == [] then NoHook
    else if Covers(list[0], addr) then list[0].hook
    else Lookup(list[1..], addr)
  }

  // ---------- insertion as the code does it ----------

  // Where the walk over the list stops, and whether it inserts there or gives up.
  datatype Stop = InsertBefore(index: nat) | GiveUp(index: nat)

  function Walk(list: seq<Mapping>, m: Mapping): (r: Stop)
    ensures r.index <= |list| && (r.GiveUp? ==> r.index < |list|)
  {
    if list == [] then InsertBefore(0)
    else if m.start < list[0].start then
      if m.end >= list[0].start then InsertBefore(0) else GiveUp(0)
    else if m.start < list[0].end then GiveUp(0)
    else match Walk(list[1..], m)
      case InsertBefore(i) => InsertBefore(i + 1)
      case GiveUp(i) => GiveUp(i + 1)
  }

  /** A node inserted at the front replaces the whole list: the old head is not linked behind it. */
  function Insert(list: seq<Mapping>, m: Mapping): seq<Mapping> {
    match Walk(list, m)
    case GiveUp(_) => list
    case InsertBefore(i) => if i == 0 then [m] else list[..i] + [m] + list[i..]
  }

  predicate Accepts(list: seq<Mapping>, m: Mapping) { Walk(list, m).InsertBefore? }

  predicate DropsList(list: seq<Mapping>, m: Mapping) { list != [] && Walk(list, m) == InsertBefore(0) }

  // What the walk has passed: mappings that begin and end no later than the new one begins.
  ghost predicate Passed(list: seq<Mapping>, i: nat, m: Mapping)
    requires i <= |list|
  {
    forall j :: 0 <= j < i ==> list[j].start <= m.start && list[j].end <= m.start
  }

  lemma PassNone(list: seq<Mapping>, m: Mapping)
    ensures Passed(list, 0, m)
  {
  }

  lemma PassNext(list: seq<Mapping>, i: nat, m: Mapping)
    requires i < |list| && Passed(list, i, m) && list[i].start <= m.start && list[i].end <= m.start
    ensures Passed(list, i + 1, m)
  {
  }

  predicate StopsAt(e: Mapping, m: Mapping, accepted: bool) {
    if accepted then m.start < e.start <= m.end
    else m.start < m.end < e.start || Covers(e, m.start)
  }

  /** The walk stops at the first mapping it cannot pass, and how that one lies decides the outcome. */
  lemma {:induction false} WalkStops(list: seq<Mapping>, m: Mapping)
    requires m.start < m.end
    ensures var r := Walk(list, m);
            && Passed(list, r.index, m)
            && (r.index < |list| ==> StopsAt(list[r.index], m, r.InsertBefore?))
  {
    if list != [] && list[0].start <= m.start && list[0].end <= m.start {
      WalkStops(list[1..], m);
      assert forall j :: 0 < j < |list| ==> list[j] == list[1..][j - 1];
    }
  }

  /** Any index the walk has passed and could not pass further is the one where it stops. */
  lemma {:induction false} WalkIsAt(list: seq<Mapping>, m: Mapping, i: nat, accepted: bool)
    requires i <= |list| && Passed(list, i, m)
    requires if i == |list| then accepted else StopsAt(list[i], m, accepted)
    ensures Walk(list, m) == if accepted then InsertBefore(i) else GiveUp(i)
  {
    if i > 0 {
      assert forall j :: 0 < j < |list| ==> list[j] == list[1..][j - 1];
      WalkIsAt(list[1..], m, i - 1, accepted);
    }
  }

  /** Holds of every list the code builds: nonempty ranges, in strictly ascending order of start. */
  ghost predicate Ascending(list: seq<Mapping>) {
    && (forall i :: 0 <= i < |list| ==> list[i].start < list[i].end)
    && (forall i, j :: 0 <= i < j < |list| ==> list[i].start < list[j].start)
  }

  lemma InsertKeepsAscending(list: seq<Mapping>, m: Mapping)
    requires Ascending(list) && m.start < m.end
    ensures Ascending(Insert(list, m))
  {
    WalkStops(list, m);
  }

  // ---------- lookup after insertion ----------

  lemma {:induction false} LookupConcat(a: seq<Mapping>, b: seq<Mapping>, addr: word)
    ensures Lookup(a + b, addr) ==
            if exists i :: 0 <= i < |a| && Covers(a[i], addr) then Lookup(a, addr) else Lookup(b, addr)
  {
    if a == [] {
      assert a + b == b;
    } else {
      assert (a + b)[1..] == a[1..] + b;
      LookupConcat(a[1..], b, addr);
      if !Covers(a[0], addr) {
        assert forall i :: 0 <= i < |a[1..]| ==> a[1..][i] == a[i + 1];
        assert (exists i :: 0 <= i < |a| && Covers(a[i], addr))
          <==> (exists i :: 0 <= i < |a[1..]| && Covers(a[1..][i], addr)) by {
          if i :| 0 <= i < |a| && Covers(a[i], addr) {
            assert Covers(a[1..][i - 1], addr);
          }
        }
      }
    }
  }

  /** An accepted insertion that keeps the old list overrides the old lookup exactly on its range. */
  lemma InsertOverrides(list: seq<Mapping>, m: Mapping, addr: word)
    requires m.start < m.end && Accepts(list, m) && !DropsList(list, m)
    ensures Lookup(Insert(list, m), addr) == if Covers(m, addr) then m.hook else Lookup(list, addr)
  {
    WalkStops(list, m);
    var i := Walk(list, m).index;
    if i > 0 {
      assert list[..i] + [m] + list[i..] == list[..i] + ([m] + list[i..]);
      LookupConcat(list[..i], [m] + list[i..], addr);
      LookupConcat(list[..i], list[i..], addr);
      assert list[..i] + list[i..] == list;
      assert ([m] + list[i..])[1..] == list[i..];
    } else {
      assert list == [] && Insert(list, m) == [m] && [m][1..] == [];
    }
  }

  /** Of the accepted insertions, just those that drop nothing mapped elsewhere are overrides. */
  lemma InsertOverridesIff(list: seq<Mapping>, m: Mapping)
    requires m.start < m.end && Accepts(list, m)
    ensures (forall addr: word ::
               Lookup(Insert(list, m), addr) == if Covers(m, addr) then m.hook else Lookup(list, addr))
       <==> !DropsList(list, m) || (forall addr: word :: !Covers(m, addr) ==> Lookup(list, addr) == NoHook)
  {
    if DropsList(list, m) {
      assert [m][1..] == [];
      assert forall addr: word :: Lookup(Insert(list, m), addr) == if Covers(m, addr) then m.hook else NoHook;
    } else {
      forall addr: word
        ensures Lookup(Insert(list, m), addr) == if Covers(m, addr) then m.hook else Lookup(list, addr)
      {
        InsertOverrides(list, m, addr);
      }
    }
  }

  // ---------- the whole history against a plain map from addresses to hooks ----------

  datatype Op = OpInsert(mapping: Mapping) | OpClear

  predicate ValidOp(op: Op) { op.OpInsert? ==> op.mapping.start < op.mapping.end }

  function Apply(list: seq<Mapping>, op: Op): seq<Mapping> {
    match op
    case OpInsert(m) => Insert(list, m)
    case OpClear => []
  }

  function Replay(ops: seq<Op>): seq<Mapping> {
    if ops == [] then [] else Apply(Replay(ops[..|ops| - 1]), ops[|ops| - 1])
  }

  function Range(m: Mapping): map<word, Hook> {
    map addr: word | 0 <= addr < 0x1_0000 && Covers(m, addr) :: m.hook
  }

  /** The same history on a plain table: override, forget and override, or leave alone. */
  function ReplayTable(ops: seq<Op>): map<word, Hook> {
    if ops == [] then map[]
    else
      var before := ReplayTable(ops[..|ops| - 1]);
      var list := Replay(ops[..|ops| - 1]);
      match ops[|ops| - 1]
      case OpClear => map[]
      case OpInsert(m) =>
        if !Accepts(list, m) then before
        else if DropsList(list, m) then Range(m)
        else before + Range(m)
  }

  /** After every sequence of insertions and clears the list is ascending and agrees with the table. */
  lemma {:induction false} ReplayAgrees(ops: seq<Op>, addr: word)
    requires forall i :: 0 <= i < |ops| ==> ValidOp(ops[i])
    ensures Ascending(Replay(ops))
    ensures Lookup(Replay(ops), addr) ==
            if addr in ReplayTable(ops) then ReplayTable(ops)[addr] else NoHook
  {
    if ops != [] {
      var last := |ops| - 1;
      assert forall i :: 0 <= i < last ==> ops[..last][i] == ops[i];
      ReplayAgrees(ops[..last], addr);
      var list := Replay(ops[..last]);
      match ops[last] {
        case OpClear =>
        case OpInsert(m) =>
          InsertKeepsAscending(list, m);
          if Accepts(list, m) {
            if DropsList(list, m) {
              assert [m][1..] == [];
            } else {
              InsertOverrides(list, m, addr);
            }
          }
      }
    }
  }

  // ---------- insertion as it is documented ----------

  predicate Overlap(a: Mapping, b: Mapping) { a.start < b.end && b.start < a.end }

  /** The documented discipline: sorted by address and pairwise disjoint. */
  ghost predicate Documented(list: seq<Mapping>) {
    && (forall i :: 0 <= i < |list| ==> list[i].start < list[i].end)
    && (forall i, j :: 0 <= i < j < |list| ==> list[i].end <= list[j].start)
  }

  predicate OverlapsAny(list: seq<Mapping>, m: Mapping) {
    exists i :: 0 <= i < |list| && Overlap(list[i], m)
  }

  /** The first position whose mapping starts after the new one. */
  function Rank(list: seq<Mapping>, m: Mapping): (k: nat)
    ensures k <= |list|
    ensures forall i :: 0 <= i < k ==> list[i].start <= m.start
    ensures k < |list| ==> m.start < list[k].start
  {
    if list == [] || m.start < list[0].start then 0
    else
      assert forall i :: 0 < i < |list| ==> list[i] == list[1..][i - 1];
      Rank(list[1..], m) + 1
  }

  function SortedInsert(list: seq<Mapping>, m: Mapping): seq<Mapping> {
    list[..Rank(list, m)] + [m] + list[Rank(list, m)..]
  }

  function DocumentedInsert(list: seq<Mapping>, m: Mapping): seq<Mapping> {
    if OverlapsAny(list, m) then list else SortedInsert(list, m)
  }

  lemma PlaceBetween(list: seq<Mapping>, m: Mapping, k: nat)
    requires Documented(list) && m.start < m.end && k <= |list|
    requires forall i :: 0 <= i < k ==> list[i].end <= m.start
    requires forall i :: k <= i < |list| ==> m.end <= list[i].start
    ensures Documented(list[..k] + [m] + list[k..])
  {
    var r := list[..k] + [m] + list[k..];
    forall i, j | 0 <= i < j < |r|
      ensures r[i].end <= r[j].start
    {
      assert i < k ==> r[i] == list[i];
      assert i > k ==> r[i] == list[i - 1];
      assert j < k ==> r[j] == list[j];
      assert j > k ==> r[j] == list[j - 1];
    }
  }

  /** The documented insertion keeps the documented discipline and puts the mapping in. */
  lemma DocumentedInsertKeeps(list: seq<Mapping>, m: Mapping)
    requires Documented(list) && m.start < m.end
    ensures Documented(DocumentedInsert(list, m))
    ensures !OverlapsAny(list, m) ==> multiset(DocumentedInsert(list, m)) == multiset(list) + multiset{m}
  {
    if !OverlapsAny(list, m) {
      var k := Rank(list, m);
      forall i | 0 <= i < |list|
        ensures i < k ==> list[i].end <= m.start
        ensures k <= i ==> m.end <= list[i].start
      {
        assert !Overlap(list[i], m);
      }
      PlaceBetween(list, m, k);
      assert list == list[..k] + list[k..];
    }
  }

  // The three situations in which the code does what is documented.
  ghost predicate StartsInside(list: seq<Mapping>, m: Mapping) {
    exists i :: 0 <= i < |list| && Covers(list[i], m.start)
  }

  ghost predicate StartsLast(list: seq<Mapping>, m: Mapping) {
    forall i :: 0 <= i < |list| ==> list[i].start <= m.start
  }

  ghost predicate EndsAtNext(list: seq<Mapping>, m: Mapping) {
    exists i :: 0 < i < |list| && list[i - 1].start <= m.start && m.end == list[i].start
  }

  ghost predicate MeetsDocument(list: seq<Mapping>, m: Mapping) {
    StartsInside(list, m) || StartsLast(list, m) || EndsAtNext(list, m)
  }

  /**
   * On a list that keeps the discipline, the code inserts as documented exactly when the new range
   * starts inside a mapping, or starts after them all, or ends where the next one (not the head) starts.
   */
  lemma InsertIsDocumentedIff(list: seq<Mapping>, m: Mapping)
    requires Documented(list) && m.start < m.end
    ensures Accepts(list, m) == !OverlapsAny(list, m) && Insert(list, m) == DocumentedInsert(list, m)
       <==> MeetsDocument(list, m)
  {
    WalkStops(list, m);
    var i := Walk(list, m).index;
    if i < |list| && Covers(list[i], m.start) {
      assert Overlap(list[i], m);
    } else {
      NotInside(list, m, i);
      if i == |list| {
        assert list[..i] + [m] + list[i..] == list + [m];
      } else if m.end > list[i].start {
        assert Overlap(list[i], m);
      } else if m.end == list[i].start && i > 0 {
        assert list[i - 1].start <= m.start;
      } else if m.end == list[i].start {
        assert |Insert(list, m)| == 1 && |SortedInsert(list, m)| == |list| + 1;
      }
    }
  }

  /** When the walk did not stop inside a mapping, the stop is the sorted position. */
  lemma NotInside(list: seq<Mapping>, m: Mapping, i: nat)
    requires Documented(list) && m.start < m.end
    requires i <= |list| && Passed(list, i, m)
    requires i < |list| ==> m.start < list[i].start
    ensures Rank(list, m) == i
    ensures !StartsInside(list, m)
    ensures StartsLast(list, m) <==> i == |list|
    ensures EndsAtNext(list, m) <==> 0 < i < |list| && m.end == list[i].start
    ensures OverlapsAny(list, m) <==> i < |list| && m.end > list[i].start
  {
    forall j | i <= j < |list|
      ensures m.start < list[i].start <= list[j].start
    {
      assert i < j ==> list[i].end <= list[j].start;
    }
    assert Rank(list, m) == i;
    OverlapAtStop(list, m, i);
    EndAtStop(list, m, i);
  }

  lemma OverlapAtStop(list: seq<Mapping>, m: Mapping, i: nat)
    requires i <= |list| && Passed(list, i, m)
    requires forall j :: i <= j < |list| ==> m.start < list[i].start <= list[j].start < list[j].end
    ensures OverlapsAny(list, m) <==> i < |list| && m.end > list[i].start
  {
    if i < |list| && m.end > list[i].start {
      assert Overlap(list[i], m);
    } else {
      assert forall j :: 0 <= j < |list| ==> !Overlap(list[j], m);
    }
  }

  lemma EndAtStop(list: seq<Mapping>, m: Mapping, i: nat)
    requires m.start < m.end && i <= |list| && Passed(list, i, m)
    requires forall j :: i <= j < |list| ==> m.start < list[i].start <= list[j].start
    ensures EndsAtNext(list, m) <==> 0 < i < |list| && m.end == list[i].start
  {
    if 0 < i < |list| && m.end == list[i].start {
      assert list[i - 1].start <= m.start;
    }
  }

  function ApplyDocumented(list: seq<Mapping>, op: Op): seq<Mapping> {
    match op
    case OpInsert(m) => DocumentedInsert(list, m)
    case OpClear => []
  }

  function ReplayDocumented(ops: seq<Op>): seq<Mapping> {
    if ops == [] then [] else ApplyDocumented(ReplayDocumented(ops[..|ops| - 1]), ops[|ops| - 1])
  }

  /** A history builds the documented lists, disjoint and sorted, when each insertion in turn meets the guard. */
  lemma {:induction false} ReplayIsDocumented(ops: seq<Op>)
    requires forall i :: 0 <= i < |ops| ==> ValidOp(ops[i])
    requires forall i :: 0 <= i < |ops| && ops[i].OpInsert? ==>
               MeetsDocument(ReplayDocumented(ops[..i]), ops[i].mapping)
    ensures Replay(ops) == ReplayDocumented(ops) && Documented(Replay(ops))
  {
    hide MeetsDocument, Documented, Apply, ApplyDocumented, ValidOp;
    if ops == [] {
      NothingDocumented();
    } else {
      var last := |ops| - 1;
      assert forall i :: 0 <= i < last ==> ops[..last][i] == ops[i] && ops[..last][..i] == ops[..i];
      ReplayIsDocumented(ops[..last]);
      ApplyIsDocumented(Replay(ops[..last]), ops[last]);
    }
  }

  /** The documented insertion keeps the discipline over every history. */
  lemma {:induction false} DocumentedHistory(ops: seq<Op>)
    requires forall i :: 0 <= i < |ops| ==> ValidOp(ops[i])
    ensures Documented(ReplayDocumented(ops))
  {
    hide Documented, DocumentedInsert, ValidOp;
    if ops == [] {
      NothingDocumented();
    } else {
      var last := |ops| - 1;
      assert forall i :: 0 <= i < last ==> ops[..last][i] == ops[i];
      DocumentedHistory(ops[..last]);
      ApplyDocumentedKeeps(ReplayDocumented(ops[..last]), ops[last]);
    }
  }

  lemma ApplyDocumentedKeeps(list: seq<Mapping>, op: Op)
    requires Documented(list) && ValidOp(op)
    ensures Documented(ApplyDocumented(list, op))
  {
    hide Documented, DocumentedInsert;
    if op.OpInsert? {
      DocumentedInsertKeeps(list, op.mapping);
    } else {
      NothingDocumented();
    }
  }

  lemma NothingDocumented()
    ensures Documented([])
  {
  }

  lemma ApplyIsDocumented(list: seq<Mapping>, op: Op)
    requires Documented(list) && ValidOp(op) && (op.OpInsert? ==> MeetsDocument(list, op.mapping))
    ensures Apply(list, op) == ApplyDocumented(list, op) && Documented(Apply(list, op))
  {
    hide Documented, Insert, DocumentedInsert;
    if op.OpInsert? {
      InsertIsDocumentedIff(list, op.mapping);
      DocumentedInsertKeeps(list, op.mapping);
    } else {
      NothingDocumented();
    }
  }

  // ---------- the code with two repairs ----------

  /** The walk with its comparison turned round: it gives up when the new range runs into the next mapping. */
  function RepairedWalk(list: seq<Mapping>, m: Mapping): (r: Stop)
    ensures r.index <= |list| && (r.GiveUp? ==> r.index < |list|)
  {
    if list == [] then InsertBefore(0)
    else if m.start < list[0].start then
      if m.end > list[0].start then GiveUp(0) else InsertBefore(0)
    else if m.start < list[0].end then GiveUp(0)
    else match RepairedWalk(list[1..], m)
      case InsertBefore(i) => InsertBefore(i + 1)
      case GiveUp(i) => GiveUp(i + 1)
  }

  /** The insertion that also links the old list behind a new head. */
  function RepairedInsert(list: seq<Mapping>, m: Mapping): seq<Mapping> {
    match RepairedWalk(list, m)
    case GiveUp(_) => list
    case InsertBefore(i) => list[..i] + [m] + list[i..]
  }

  predicate RepairedStopsAt(e: Mapping, m: Mapping, accepted: bool) {
    if accepted then m.start < e.start && m.end <= e.start
    else m.start < e.start < m.end || Covers(e, m.start)
  }

  lemma {:induction false} RepairedWalkStops(list: seq<Mapping>, m: Mapping)
    ensures var r := RepairedWalk(list, m);
            && Passed(list, r.index, m)
            && (r.index < |list| ==> RepairedStopsAt(list[r.index], m, r.InsertBefore?))
  {
    if list != [] && list[0].start <= m.start && list[0].end <= m.start {
      RepairedWalkStops(list[1..], m);
      assert forall j :: 0 < j < |list| ==> list[j] == list[1..][j - 1];
    }
  }

  lemma {:induction false} RepairedWalkIsAt(list: seq<Mapping>, m: Mapping, i: nat, accepted: bool)
    requires i <= |list| && Passed(list, i, m)
    requires if i == |list| then accepted else RepairedStopsAt(list[i], m, accepted)
    ensures RepairedWalk(list, m) == if accepted then InsertBefore(i) else GiveUp(i)
  {
    if i > 0 {
      assert forall j :: 0 < j < |list| ==> list[j] == list[1..][j - 1];
      RepairedWalkIsAt(list[1..], m, i - 1, accepted);
    }
  }

  lemma RepairedKeepsAscending(list: seq<Mapping>, m: Mapping)
    requires Ascending(list) && m.start < m.end
    ensures Ascending(RepairedInsert(list, m))
  {
    RepairedWalkStops(list, m);
  }

  /** With both repairs, and on every list that keeps the discipline, the code meets its comment. */
  lemma RepairedIsDocumented(list: seq<Mapping>, m: Mapping)
    requires Documented(list) && m.start < m.end
    ensures RepairedWalk(list, m).GiveUp? <==> OverlapsAny(list, m)
    ensures RepairedInsert(list, m) == DocumentedInsert(list, m)
  {
    RepairedWalkStops(list, m);
    var r := RepairedWalk(list, m);
    if r.InsertBefore? {
      NotInside(list, m, r.index);
    } else {
      assert Overlap(list[r.index], m);
    }
  }

  function ReplayRepaired(ops: seq<Op>): seq<Mapping> {
    if ops == [] then []
    else
      var before := ReplayRepaired(ops[..|ops| - 1]);
      match ops[|ops| - 1]
      case OpInsert(m) => RepairedInsert(before, m)
      case OpClear => []
  }

  /** Over every history the repaired code builds the documented lists, sorted and disjoint. */
  lemma {:induction false} ReplayRepairedIsDocumented(ops: seq<Op>)
    requires forall i :: 0 <= i < |ops| ==> ValidOp(ops[i])
    ensures ReplayRepaired(ops) == ReplayDocumented(ops) && Documented(ReplayRepaired(ops))
  {
    hide Documented, DocumentedInsert, RepairedInsert;
    DocumentedHistory(ops);
    if ops != [] {
      var last := |ops| - 1;
      assert forall i :: 0 <= i < last ==> ops[..last][i] == ops[i];
      ReplayRepairedIsDocumented(ops[..last]);
      if ops[last].OpInsert? {
        RepairedIsDocumented(ReplayRepaired(ops[..last]), ops[last].mapping);
      }
    }
  }

  /** The code accepts an overlap, rejects a disjoint range, and drops a whole list. */
  lemma InsertDeparts(hook: Hook)
    ensures var list := [Mapping(0x20, 0x30, hook)];
            && Accepts(list, Mapping(0x10, 0x28, hook)) && OverlapsAny(list, Mapping(0x10, 0x28, hook))
            && !Accepts(list, Mapping(0x10, 0x18, hook)) && !OverlapsAny(list, Mapping(0x10, 0x18, hook))
            && Insert(list, Mapping(0x10, 0x20, hook)) == [Mapping(0x10, 0x20, hook)]
  {
    var list := [Mapping(0x20, 0x30, hook)];
    assert Overlap(list[0], Mapping(0x10, 0x28, hook));
  }
}
