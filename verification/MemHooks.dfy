/** The three linked lists of memory hooks: insertion, search and clearing on the heap. */
module MemHooks {
  import opened Bytes
  import opened HookLists

  class MemHook {
    const mapping: Mapping
    var next: MemHook?

    constructor (mapping: Mapping)
      ensures this.mapping == mapping && next == null
    {
      this.mapping := mapping;
      next := null;
    }
  }

  ghost function Mappings(nodes: seq<MemHook>): (r: seq<Mapping>)
    ensures |r| == |nodes| && forall i :: 0 <= i < |r| ==> r[i] == nodes[i].mapping
  {
    seq(|nodes|, i requires 0 <= i < |nodes| => nodes[i].mapping)
  }

  ghost function Spliced(nodes: seq<MemHook>, i: nat, mh: MemHook): seq<MemHook>
    requires i <= |nodes|
  {
    nodes[..i] + [mh] + nodes[i..]
  }

  // At the front the new node replaces the others.
  ghost function Linked(nodes: seq<MemHook>, i: nat, mh: MemHook): seq<MemHook>
    requires i <= |nodes|
  {
    if i == 0 then [mh] else Spliced(nodes, i, mh)
  }

  ghost predicate Distinct(nodes: seq<MemHook>) {
    forall i, j :: 0 <= i < j < |nodes| ==> nodes[i] != nodes[j]
  }

  lemma SplicedDistinct(nodes: seq<MemHook>, i: nat, mh: MemHook)
    requires Distinct(nodes) && mh !in nodes && i <= |nodes|
    ensures Distinct(Spliced(nodes, i, mh))
  {
    var r := Spliced(nodes, i, mh);
    forall j, k | 0 <= j < k < |r|
      ensures r[j] != r[k]
    {
      assert r[j] == if j < i then nodes[j] else if j == i then mh else nodes[j - 1];
      assert r[k] == if k < i then nodes[k] else if k == i then mh else nodes[k - 1];
    }
  }

  lemma SplicedMappings(nodes: seq<MemHook>, i: nat, mh: MemHook)
    requires i <= |nodes|
    ensures Mappings(Spliced(nodes, i, mh)) == Mappings(nodes)[..i] + [mh.mapping] + Mappings(nodes)[i..]
  {
  }

  /** Linking a node in where the walk stops builds the list that the insertion describes. */
  lemma InsertAtStop(nodes: seq<MemHook>, i: nat, mh: MemHook)
    requires Ascending(Mappings(nodes)) && mh.mapping.start < mh.mapping.end
    requires i <= |nodes| && Passed(Mappings(nodes), i, mh.mapping)
    requires i < |nodes| ==> StopsAt(Mappings(nodes)[i], mh.mapping, true)
    ensures Accepts(Mappings(nodes), mh.mapping)
    ensures Mappings(Linked(nodes, i, mh)) == HookLists.Insert(Mappings(nodes), mh.mapping)
    ensures Ascending(Mappings(Linked(nodes, i, mh)))
  {
    hide Ascending, Passed;
    WalkIsAt(Mappings(nodes), mh.mapping, i, true);
    InsertKeepsAscending(Mappings(nodes), mh.mapping);
    if i > 0 {
      SplicedMappings(nodes, i, mh);
    } else {
      assert Mappings([mh]) == [mh.mapping];
    }
  }

  lemma RepairedInsertAtStop(nodes: seq<MemHook>, i: nat, mh: MemHook)
    requires Ascending(Mappings(nodes)) && mh.mapping.start < mh.mapping.end
    requires i <= |nodes| && RepairedWalk(Mappings(nodes), mh.mapping) == InsertBefore(i)
    ensures Mappings(Spliced(nodes, i, mh)) == RepairedInsert(Mappings(nodes), mh.mapping)
    ensures Ascending(Mappings(Spliced(nodes, i, mh)))
  {
    hide Ascending;
    RepairedKeepsAscending(Mappings(nodes), mh.mapping);
    SplicedMappings(nodes, i, mh);
  }

  // One linked list: the head pointer, and the nodes it leads to in order.
  class HookList {
    var head: MemHook?
    ghost var nodes: seq<MemHook>

    ghost predicate Valid()
      reads this, nodes
    {
      && head == NodeAt(0)
      && (forall i {:trigger nodes[i].next} :: 0 <= i < |nodes| ==> nodes[i].next == NodeAt(i + 1))
      && Distinct(nodes)
      && Ascending(Contents())
    }

    ghost function Contents(): seq<Mapping>
      reads this
    {
      Mappings(nodes)
    }

    ghost function NodeAt(i: nat): MemHook?
      reads this
    {
      if i < |nodes| then nodes[i] else null
    }

    constructor ()
      ensures Valid() && Contents() == [] && nodes == []
    {
      head := null;
      nodes := [];
    }

    /** The walk of the insertion, with a trailing pointer; found is false when it gives up. */
    method FindPlace(mapping: Mapping)
      returns (found: bool, previous: MemHook?, current: MemHook?, ghost i: nat)
      requires Valid() && mapping.start < mapping.end
      ensures i <= |nodes| && Passed(Contents(), i, mapping)
      ensures current == NodeAt(i) && previous == if i > 0 then NodeAt(i - 1) else null
      ensures i < |nodes| ==> StopsAt(Contents()[i], mapping, found)
      ensures i == |nodes| ==> found
      ensures found == Accepts(Contents(), mapping)
    {
      hide Ascending, Distinct, Passed;
      PassNone(Contents(), mapping);
      current := head;
      previous := null;
      i := 0;
      while current != null
        invariant 0 <= i <= |nodes| && Passed(Contents(), i, mapping)
        invariant current == NodeAt(i) && previous == if i > 0 then NodeAt(i - 1) else null
        decreases |nodes| - i
      {
        assert current.mapping == Contents()[i];
        if mapping.start < current.mapping.start {
          if mapping.end >= current.mapping.start {
            break;
          } else {
            WalkIsAt(Contents(), mapping, i, false);
            found := false;
            return;
          }
        } else if mapping.start < current.mapping.end {
          WalkIsAt(Contents(), mapping, i, false);
          found := false;
          return;
        }
        PassNext(Contents(), i, mapping);
        previous := current;
        current := current.next;
        i := i + 1;
      }
      WalkIsAt(Contents(), mapping, i, true);
      found := true;
    }

    /** Returns 0 and links a new node in, or returns 1 and changes nothing. */
    method Insert(mapping: Mapping) returns (code: int)
      requires Valid() && mapping.start < mapping.end
      modifies this, nodes
      ensures Valid()
      ensures Contents() == HookLists.Insert(old(Contents()), mapping)
      ensures code == if Accepts(old(Contents()), mapping) then 0 else 1
      ensures forall node :: node in nodes ==> node in old(nodes) || fresh(node)
    {
      hide Ascending, Distinct, StopsAt, Passed;
      var found, previous, current, i := FindPlace(mapping);
      if !found {
        return 1;
      }
      var mh := new MemHook(mapping);
      InsertAtStop(nodes, i, mh);
      Link(mh, previous, current, i);
      return 0;
    }

    method Link(mh: MemHook, previous: MemHook?, current: MemHook?, ghost i: nat)
      requires Valid() && i <= |nodes|
      requires current == NodeAt(i) && previous == if i > 0 then NodeAt(i - 1) else null
      requires mh !in nodes && mh.next == null
      requires Ascending(Mappings(Linked(nodes, i, mh)))
      modifies this, nodes, mh
      ensures Valid() && nodes == Linked(old(nodes), i, mh)
    {
      SplicedDistinct(nodes, i, mh);
      ghost var before := nodes;
      if previous != null {
        previous.next := mh;
        mh.next := current;
      } else {
        head := mh;
      }
      nodes := Linked(nodes, i, mh);
      forall k | 0 <= k < |nodes|
        ensures nodes[k].next == NodeAt(k + 1)
      {
        if i > 0 {
          if k < i {
            assert nodes[k] == before[k];
          } else if k > i {
            assert nodes[k] == before[k - 1];
          }
        }
      }
    }

    // ---------- the insertion with two repairs ----------

    /** As FindPlace, but it gives up when the new range runs into the next mapping. */
    method FindPlaceRepaired(mapping: Mapping)
      returns (found: bool, previous: MemHook?, current: MemHook?, ghost i: nat)
      requires Valid() && mapping.start < mapping.end
      ensures i <= |nodes|
      ensures current == NodeAt(i) && previous == if i > 0 then NodeAt(i - 1) else null
      ensures RepairedWalk(Contents(), mapping) == if found then InsertBefore(i) else GiveUp(i)
    {
      hide Ascending, Distinct, Passed;
      PassNone(Contents(), mapping);
      current := head;
      previous := null;
      i := 0;
      while current != null
        invariant 0 <= i <= |nodes| && Passed(Contents(), i, mapping)
        invariant current == NodeAt(i) && previous == if i > 0 then NodeAt(i - 1) else null
        decreases |nodes| - i
      {
        assert current.mapping == Contents()[i];
        if mapping.start < current.mapping.start {
          found := mapping.end <= current.mapping.start;
          RepairedWalkIsAt(Contents(), mapping, i, found);
          return;
        } else if mapping.start < current.mapping.end {
          found := false;
          RepairedWalkIsAt(Contents(), mapping, i, found);
          return;
        }
        PassNext(Contents(), i, mapping);
        previous := current;
        current := current.next;
        i := i + 1;
      }
      found := true;
      RepairedWalkIsAt(Contents(), mapping, i, found);
    }

    /** As Insert, but it rejects what overlaps and never loses a node: the list stays linked and acyclic. */
    method InsertRepaired(mapping: Mapping) returns (code: int)
      requires Valid() && mapping.start < mapping.end
      modifies this, nodes
      ensures Valid()
      ensures Contents() == RepairedInsert(old(Contents()), mapping)
      ensures code == if RepairedWalk(old(Contents()), mapping).InsertBefore? then 0 else 1
      ensures forall node :: node in old(nodes) ==> node in nodes
      ensures forall node :: node in nodes ==> node in old(nodes) || fresh(node)
    {
      hide Ascending, Distinct;
      var found, previous, current, i := FindPlaceRepaired(mapping);
      if !found {
        return 1;
      }
      var mh := new MemHook(mapping);
      RepairedInsertAtStop(nodes, i, mh);
      LinkRepaired(mh, previous, current, i);
      return 0;
    }

    /** As Link, but the old head goes behind a new one. */
    method LinkRepaired(mh: MemHook, previous: MemHook?, current: MemHook?, ghost i: nat)
      requires Valid() && i <= |nodes|
      requires current == NodeAt(i) && previous == if i > 0 then NodeAt(i - 1) else null
      requires mh !in nodes && Ascending(Mappings(Spliced(nodes, i, mh)))
      modifies this, nodes, mh
      ensures Valid() && nodes == Spliced(old(nodes), i, mh)
    {
      SplicedDistinct(nodes, i, mh);
      ghost var before := nodes;
      if previous != null {
        previous.next := mh;
      } else {
        head := mh;
      }
      mh.next := current;
      nodes := Spliced(nodes, i, mh);
      forall k | 0 <= k < |nodes|
        ensures nodes[k].next == NodeAt(k + 1)
      {
        if k < i {
          assert nodes[k] == before[k];
        } else if k > i {
          assert nodes[k] == before[k - 1];
        }
      }
    }

    method Check(addr: word) returns (hook: Hook)
      requires Valid()
      ensures hook == Lookup(Contents(), addr)
    {
      var current := head;
      ghost var i := 0;
      assert Contents()[0..] == Contents();
      while current != null
        invariant 0 <= i <= |nodes|
        invariant current == NodeAt(i)
        invariant Lookup(Contents(), addr) == Lookup(Contents()[i..], addr)
        decreases |nodes| - i
      {
        assert Contents()[i..][1..] == Contents()[i + 1..];
        if current.mapping.start <= addr < current.mapping.end {
          return current.mapping.hook;
        }
        current := current.next;
        i := i + 1;
      }
      return NoHook;
    }

    /** Unlinks the list and then visits every node of it once, to release it. */
    method Clear()
      requires Valid()
      modifies this
      ensures Valid() && Contents() == [] && nodes == []
    {
      ghost var released := nodes;
      var current := head;
      head := null;
      nodes := [];
      ghost var i := 0;
      while current != null
        invariant 0 <= i <= |released|
        invariant current == if i < |released| then released[i] else null
        invariant forall k {:trigger released[k].next} :: 0 <= k < |released| ==>
                    released[k].next == if k + 1 < |released| then released[k + 1] else null
        decreases |released| - i
      {
        current := current.next;
        i := i + 1;
      }
    }
  }

  // The lists for reads, writes and address translation, each over nodes of its own.
  class HookTable {
    const onRead: HookList
    const onWrite: HookList
    const onTransl: HookList

    ghost function Nodes(): set<MemHook>
      reads onRead, onWrite, onTransl
    {
      (set n | n in onRead.nodes) + (set n | n in onWrite.nodes) + (set n | n in onTransl.nodes)
    }

    ghost predicate Valid()
      reads onRead, onWrite, onTransl, Nodes()
    {
      && onRead.Valid() && onWrite.Valid() && onTransl.Valid()
      && onRead != onWrite && onRead != onTransl && onWrite != onTransl
      && (forall n :: n in onRead.nodes ==> n !in onWrite.nodes && n !in onTransl.nodes)
      && (forall n :: n in onWrite.nodes ==> n !in onTransl.nodes)
    }

    ghost function Contents(): Hooks
      reads onRead, onWrite, onTransl
    {
      Hooks(onRead.Contents(), onWrite.Contents(), onTransl.Contents())
    }

    constructor ()
      ensures Valid() && Contents() == Hooks([], [], [])
      ensures fresh(onRead) && fresh(onWrite) && fresh(onTransl)
    {
      onRead := new HookList();
      onWrite := new HookList();
      onTransl := new HookList();
    }

    method InsertRead(f: word -> byte, start: word, end: word) returns (code: int)
      requires Valid() && start < end
      modifies onRead, onRead.nodes
      ensures Valid()
      ensures var m := Mapping(start, end, ReadHook(f));
              && code == (if Accepts(old(Contents()).onRead, m) then 0 else 1)
              && Contents() == old(Contents()).(onRead := HookLists.Insert(old(Contents()).onRead, m))
    {
      code := onRead.Insert(Mapping(start, end, ReadHook(f)));
      assert forall n :: n in onWrite.nodes || n in onTransl.nodes ==> n.next == old(n.next);
    }

    method InsertWrite(f: (word, byte) -> byte, start: word, end: word) returns (code: int)
      requires Valid() && start < end
      modifies onWrite, onWrite.nodes
      ensures Valid()
      ensures var m := Mapping(start, end, WriteHook(f));
              && code == (if Accepts(old(Contents()).onWrite, m) then 0 else 1)
              && Contents() == old(Contents()).(onWrite := HookLists.Insert(old(Contents()).onWrite, m))
    {
      code := onWrite.Insert(Mapping(start, end, WriteHook(f)));
      assert forall n :: n in onRead.nodes || n in onTransl.nodes ==> n.next == old(n.next);
    }

    method InsertTransl(f: word -> word, start: word, end: word) returns (code: int)
      requires Valid() && start < end
      modifies onTransl, onTransl.nodes
      ensures Valid()
      ensures var m := Mapping(start, end, TranslHook(f));
              && code == (if Accepts(old(Contents()).onTransl, m) then 0 else 1)
              && Contents() == old(Contents()).(onTransl := HookLists.Insert(old(Contents()).onTransl, m))
    {
      code := onTransl.Insert(Mapping(start, end, TranslHook(f)));
      assert forall n :: n in onRead.nodes || n in onWrite.nodes ==> n.next == old(n.next);
    }

    method Clear()
      requires Valid()
      modifies onRead, onWrite, onTransl
      ensures Valid() && Contents() == Hooks([], [], [])
    {
      onRead.Clear();
      onWrite.Clear();
      onTransl.Clear();
    }
  }
}
