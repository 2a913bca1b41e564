/**
  The registry of background processes (list.c): a singly-linked list of nodes
  reached through `head`, newest process first.
 */
module ProcessList {
  import opened Output

  /** The data of one node (list.h): the process id and the display path. */
  datatype ProcessRecord = ProcessRecord(pid: int, path: string)

  // ---------------------------------------------------------------------------
  // The list as a value.

  predicate Contains(s: seq<ProcessRecord>, pid: int) {
    exists i :: 0 <= i < |s| && s[i].pid == pid
  }

  /** No two records carry the same pid. */
  predicate Unique(s: seq<ProcessRecord>) {
    forall i, j :: 0 <= i < j < |s| ==> s[i].pid != s[j].pid
  }

  /** The list without its first record carrying `pid` (unchanged when there is none). */
  function RemoveFirst(s: seq<ProcessRecord>, pid: int): (r: seq<ProcessRecord>) {
    if s == [] then []
    else if s[0].pid == pid then s[1..]
    else [s[0]] + RemoveFirst(s[1..], pid)
  }

  /** The records whose pid is not in `pids`, in their order. */
  function Without(s: seq<ProcessRecord>, pids: set<int>): (r: seq<ProcessRecord>)
    ensures |r| <= |s|
  {
    if s == [] then []
    else if s[0].pid in pids then Without(s[1..], pids)
    else [s[0]] + Without(s[1..], pids)
  }

  /** What `remove_from_list` prints. */
  function RemovalOutput(s: seq<ProcessRecord>, pid: int): (lines: seq<Out>) {
    if Contains(s, pid) then [] else [ListMissing(pid)]
  }

  /** What `print_list` prints. */
  function Listing(s: seq<ProcessRecord>): (lines: seq<Out>) {
    if s == [] then [NoBackgroundProcesses] else EntryLines(s) + [ListTotal(|s|)]
  }

  function EntryLines(s: seq<ProcessRecord>): (r: seq<Out>)
    ensures |r| == |s| && forall i :: 0 <= i < |s| ==> r[i] == ListEntry(s[i].pid, s[i].path)
  {
    seq(|s|, i requires 0 <= i < |s| => ListEntry(s[i].pid, s[i].path))
  }

  // ---------------------------------------------------------------------------
  // Lemmas about the list as a value.

  /** Removing a pid that is not there changes nothing. */
  lemma {:induction false} RemoveFirstAbsent(s: seq<ProcessRecord>, pid: int)
    requires !Contains(s, pid)
    ensures RemoveFirst(s, pid) == s
    decreases |s|
  {
    if s != [] {
      assert !Contains(s[1..], pid) by {
        forall i | 0 <= i < |s[1..]| ensures s[1..][i].pid != pid {
          assert s[1..][i] == s[i + 1];
        }
      }
      RemoveFirstAbsent(s[1..], pid);
    }
  }

  /** Removing the first record with `pid` keeps every record with another pid. */
  lemma {:induction false} RemoveFirstKeeps(s: seq<ProcessRecord>, pid: int, r: ProcessRecord)
    requires r in s && r.pid != pid
    ensures r in RemoveFirst(s, pid)
    decreases |s|
  {
    if s[0] != r {
      assert r in s[1..];
      if s[0].pid != pid {
        RemoveFirstKeeps(s[1..], pid, r);
      }
    }
  }

  /** When the first record with `pid` is at index k, exactly that record goes. */
  lemma {:induction false} RemoveFirstAt(s: seq<ProcessRecord>, pid: int, k: nat)
    requires k < |s| && s[k].pid == pid
    requires forall j :: 0 <= j < k ==> s[j].pid != pid
    ensures RemoveFirst(s, pid) == s[..k] + s[k + 1..]
    decreases k
  {
    if k > 0 {
      RemoveFirstAt(s[1..], pid, k - 1);
      assert s[1..][..k - 1] == s[1..k];
      assert s[1..][k..] == s[k + 1..];
      assert [s[0]] + s[1..k] == s[..k];
    }
  }

  /**
    Removal, both ways: for a present pid the result is the list without its first
    record with that pid, one shorter and otherwise in the same order; for an absent
    pid it is the list itself.
   */
  lemma RemoveFirstSpec(s: seq<ProcessRecord>, pid: int)
    ensures Contains(s, pid) ==>
              exists k :: (0 <= k < |s| && s[k].pid == pid &&
                           (forall j :: 0 <= j < k ==> s[j].pid != pid) &&
                           RemoveFirst(s, pid) == s[..k] + s[k + 1..] && |RemoveFirst(s, pid)| == |s| - 1)
    ensures !Contains(s, pid) ==> RemoveFirst(s, pid) == s
  {
    if Contains(s, pid) {
      var k := FirstIndex(s, pid);
      RemoveFirstAt(s, pid, k);
    } else {
      RemoveFirstAbsent(s, pid);
    }
  }

  /** The index of the first record carrying `pid`. */
  function FirstIndex(s: seq<ProcessRecord>, pid: int): (k: nat)
    requires Contains(s, pid)
    ensures k < |s| && s[k].pid == pid && forall j :: 0 <= j < k ==> s[j].pid != pid
    decreases |s|
  {
    if s[0].pid == pid then 0
    else
      assert Contains(s[1..], pid) by {
        var i :| 0 <= i < |s| && s[i].pid == pid;
        assert s[1..][i - 1] == s[i];
      }
      1 + FirstIndex(s[1..], pid)
  }

  /** `add_to_list` does not check for duplicates: prepending keeps pids unique exactly when the pid is new. */
  lemma PrependUnique(s: seq<ProcessRecord>, r: ProcessRecord)
    requires Unique(s)
    ensures Unique([r] + s) <==> !Contains(s, r.pid)
  {
    var t := [r] + s;
    if Contains(s, r.pid) {
      var i :| 0 <= i < |s| && s[i].pid == r.pid;
      assert t[0].pid == t[i + 1].pid;
    } else {
      forall i, j | 0 <= i < j < |t| ensures t[i].pid != t[j].pid {
        if i > 0 { assert t[i] == s[i - 1]; }
        assert t[j] == s[j - 1];
      }
    }
  }

  lemma {:induction false} WithoutMembers(s: seq<ProcessRecord>, pids: set<int>)
    ensures forall r :: r in Without(s, pids) <==> r in s && r.pid !in pids
    decreases |s|
  {
    if s != [] {
      WithoutMembers(s[1..], pids);
      assert s == [s[0]] + s[1..];
    }
  }

  lemma {:induction false} WithoutUnique(s: seq<ProcessRecord>, pids: set<int>)
    requires Unique(s)
    ensures Unique(Without(s, pids))
    decreases |s|
  {
    if s != [] {
      assert Unique(s[1..]) by {
        forall i, j | 0 <= i < j < |s[1..]| ensures s[1..][i].pid != s[1..][j].pid {
          assert s[1..][i] == s[i + 1] && s[1..][j] == s[j + 1];
        }
      }
      WithoutUnique(s[1..], pids);
      if s[0].pid !in pids {
        var rest := Without(s[1..], pids);
        WithoutMembers(s[1..], pids);
        assert !Contains(rest, s[0].pid) by {
          forall i | 0 <= i < |rest| ensures rest[i].pid != s[0].pid {
            assert rest[i] in s[1..];
            var j :| 0 <= j < |s[1..]| && s[1..][j] == rest[i];
            assert s[j + 1] == rest[i];
          }
        }
        PrependUnique(rest, s[0]);
      }
    }
  }

  lemma {:induction false} WithoutUnion(s: seq<ProcessRecord>, a: set<int>, b: set<int>)
    ensures Without(Without(s, a), b) == Without(s, a + b)
    decreases |s|
  {
    if s != [] {
      WithoutUnion(s[1..], a, b);
      if s[0].pid !in a {
        assert Without(s, a) == [s[0]] + Without(s[1..], a);
        assert ([s[0]] + Without(s[1..], a))[1..] == Without(s[1..], a);
      }
    }
  }

  /** With unique pids, removing the first record with `pid` removes every record with it. */
  lemma {:induction false} RemoveFirstUnique(s: seq<ProcessRecord>, pid: int)
    requires Unique(s)
    ensures RemoveFirst(s, pid) == Without(s, {pid})
    decreases |s|
  {
    if s != [] {
      assert Unique(s[1..]) by {
        forall i, j | 0 <= i < j < |s[1..]| ensures s[1..][i].pid != s[1..][j].pid {
          assert s[1..][i] == s[i + 1] && s[1..][j] == s[j + 1];
        }
      }
      if s[0].pid == pid {
        assert !Contains(s[1..], pid) by {
          forall i | 0 <= i < |s[1..]| ensures s[1..][i].pid != pid {
            assert s[1..][i] == s[i + 1];
          }
        }
        WithoutAbsent(s[1..], pid);
      } else {
        RemoveFirstUnique(s[1..], pid);
      }
    }
  }

  lemma {:induction false} WithoutAbsent(s: seq<ProcessRecord>, pid: int)
    requires !Contains(s, pid)
    ensures Without(s, {pid}) == s
    decreases |s|
  {
    if s != [] {
      assert !Contains(s[1..], pid) by {
        forall i | 0 <= i < |s[1..]| ensures s[1..][i].pid != pid {
          assert s[1..][i] == s[i + 1];
        }
      }
      WithoutAbsent(s[1..], pid);
      assert s == [s[0]] + s[1..];
    }
  }

  // ---------------------------------------------------------------------------
  // The list in the heap.

  class Node {
    const pid: int
    const path: string
    var next: Node?

    constructor (pid: int, path: string, next: Node?)
      ensures this.pid == pid && this.path == path && this.next == next
    {
      this.pid := pid;
      this.path := path;
      this.next := next;
    }
  }

  predicate Distinct(nodes: seq<Node>) {
    forall i, j :: 0 <= i < j < |nodes| ==> nodes[i] != nodes[j]
  }

  lemma DistinctWithout(nodes: seq<Node>, k: nat)
    requires Distinct(nodes) && k < |nodes|
    ensures Distinct(nodes[..k] + nodes[k + 1..])
  {
    var rest := nodes[..k] + nodes[k + 1..];
    forall i, j | 0 <= i < j < |rest| ensures rest[i] != rest[j] {
      var i' := if i < k then i else i + 1;
      var j' := if j < k then j else j + 1;
      assert rest[i] == nodes[i'] && rest[j] == nodes[j'];
    }
  }

  /** A chain in which no node carries `pid` has no record with `pid`. */
  lemma NoneCarries(nodes: seq<Node>, pid: int)
    requires forall j :: 0 <= j < |nodes| ==> nodes[j].pid != pid
    ensures !Contains(Records(nodes), pid)
  {
  }

  function Records(nodes: seq<Node>): (r: seq<ProcessRecord>)
    ensures |r| == |nodes| && forall i :: 0 <= i < |nodes| ==> r[i] == ProcessRecord(nodes[i].pid, nodes[i].path)
  {
    seq(|nodes|, i requires 0 <= i < |nodes| => ProcessRecord(nodes[i].pid, nodes[i].path))
  }

  lemma RecordsPrepend(n: Node, nodes: seq<Node>)
    ensures Records([n] + nodes) == [ProcessRecord(n.pid, n.path)] + Records(nodes)
  {
    var r := Records([n] + nodes);
    assert forall i :: 1 <= i < |r| ==> r[i] == Records(nodes)[i - 1];
  }

  /** The chain with node `k + 1` cut out: what stays where, by index. */
  lemma UnlinkShape(nodes: seq<Node>, k: nat)
    requires k + 1 < |nodes| && Distinct(nodes)
    ensures var r := nodes[..k + 1] + nodes[k + 2..];
            && |r| == |nodes| - 1
            && (forall i :: 0 <= i <= k ==> r[i] == nodes[i])
            && (forall i :: k < i < |r| ==> r[i] == nodes[i + 1])
            && Distinct(r)
            && Records(r) == Records(nodes)[..k + 1] + Records(nodes)[k + 2..]
  {
    DistinctWithout(nodes, k + 1);
  }

  /**
    The global list. `nodes` is the chain from `head` in order; `Repr` holds every
    node ever linked. Cases 2 and 3 of `remove_from_list` unlink a node without
    freeing it; only `remove_tail` frees its node, and freeing is not modelled.
   */
  class Registry {
    var head: Node?
    ghost var nodes: seq<Node>
    ghost var Repr: set<Node>

    ghost predicate Valid()
      reads this, Repr
    {
      && (forall i :: 0 <= i < |nodes| ==> nodes[i] in Repr)
      && (if nodes == [] then head == null else head == nodes[0])
      && (forall i {:trigger nodes[i].next} :: 0 <= i < |nodes| - 1 ==> nodes[i].next == nodes[i + 1])
      && (nodes != [] ==> nodes[|nodes| - 1].next == null)
      && Distinct(nodes)
    }

    /** The records in list order, as `print_list` walks them. */
    ghost function Contents(): (c: seq<ProcessRecord>)
      reads this
    {
      Records(nodes)
    }

    /** `node* head = NULL;` */
    constructor ()
      ensures Valid() && fresh(Repr) && Contents() == []
    {
      head := null;
      nodes := [];
      Repr := {};
    }

    /** `add_to_list`: the new record goes in front, nothing else moves. */
    method AddToList(pid: int, path: string)
      requires Valid()
      modifies this
      ensures Valid() && fresh(Repr - old(Repr))
      ensures Contents() == [ProcessRecord(pid, path)] + old(Contents())
    {
      var n := new Node(pid, path, head);
      ghost var was := nodes;
      head := n;
      nodes := [n] + nodes;
      Repr := Repr + {n};
      forall i | 0 <= i < |nodes| - 1
        ensures nodes[i].next == nodes[i + 1]
      {
        if i > 0 {
          assert nodes[i] == was[i - 1];
        }
      }
      RecordsPrepend(n, was);
    }

    /** `search_for_pid`: 1 when some node carries `pid`, 0 otherwise. */
    method SearchForPid(pid: int) returns (found: int)
      requires Valid()
      ensures found == if Contains(Contents(), pid) then 1 else 0
    {
      var curr := head;
      ghost var k := 0;
      while curr != null
        invariant 0 <= k <= |nodes|
        invariant curr == if k < |nodes| then nodes[k] else null
        invariant forall j :: 0 <= j < k ==> nodes[j].pid != pid
        decreases |nodes| - k
      {
        if curr.pid == pid {
          return 1;
        }
        curr := curr.next;
        k := k + 1;
      }
      return 0;
    }

    /** `remove_tail`: unlink the last node; the list must not be empty. */
    method RemoveTail()
      requires Valid() && |Contents()| > 0
      modifies this, Repr
      ensures Valid() && Repr == old(Repr)
      ensures Contents() == old(Contents())[..|old(Contents())| - 1]
    {
      assert |nodes| > 1 ==> nodes[0].next == nodes[1];
      if head.next == null {
        head := null;
        nodes := [];
        return;
      }
      var curr := head;
      ghost var k := 0;
      while curr.next.next != null
        invariant 0 <= k < |nodes| - 1 && curr == nodes[k] && curr.next == nodes[k + 1]
        invariant Valid() && unchanged(this)
        decreases |nodes| - k
      {
        curr := curr.next;
        k := k + 1;
      }
      assert k + 2 == |nodes|;
      curr.next := null;
      nodes := nodes[..k + 1];
      assert Records(nodes) == old(Records(nodes))[..k + 1];
    }

    /**
      `remove_from_list`: unlink the first node carrying `pid`, wherever it is; when
      there is none, leave the list alone and print that the process does not exist.
     */
    method RemoveFromList(pid: int) returns (printed: seq<Out>)
      requires Valid()
      modifies this, Repr
      ensures Valid() && Repr == old(Repr)
      ensures Contents() == RemoveFirst(old(Contents()), pid)
      ensures printed == RemovalOutput(old(Contents()), pid)
    {
      ghost var s := Contents();
      if head == null {
        RemoveFirstAbsent(s, pid);
        return [ListMissing(pid)];
      }
      if head.pid == pid {
        UnlinkHead();
        return [];
      }
      var curr := head;
      ghost var k := 0;
      while curr.next != null
        invariant 0 <= k < |nodes| && curr == nodes[k]
        invariant forall j :: 0 <= j <= k ==> nodes[j].pid != pid
        invariant Valid() && unchanged(this) && Contents() == s
        decreases |nodes| - k
      {
        if curr.next.pid == pid {
          UnlinkAfter(curr, k);
          RemoveFirstAt(s, pid, k + 1);
          return [];
        }
        curr := curr.next;
        k := k + 1;
      }
      assert k == |nodes| - 1;
      if curr.pid == pid {
        // list.c calls remove_tail() here; the loop above has already compared
        // every node after the head, so this branch is never taken.
        assert false;
      } else {
        NoneCarries(nodes, pid);
        RemoveFirstAbsent(s, pid);
        printed := [ListMissing(pid)];
      }
    }

    /** `head = head->next`: bypass the first node. */
    method UnlinkHead()
      requires Valid() && nodes != []
      modifies this
      ensures Valid() && Repr == old(Repr)
      ensures Contents() == old(Contents()[1..])
    {
      head := head.next;
      nodes := nodes[1..];
      assert Distinct(nodes) by {
        forall i, j | 0 <= i < j < |nodes| ensures nodes[i] != nodes[j] {
          assert nodes[i] == old(nodes)[i + 1] && nodes[j] == old(nodes)[j + 1];
        }
      }
      assert Records(nodes) == old(Records(nodes))[1..];
    }

    /** `curr->next = curr->next->next`: bypass the node after `prev`, which is node `k`. */
    method UnlinkAfter(prev: Node, ghost k: nat)
      requires Valid() && k + 1 < |nodes| && prev == nodes[k]
      modifies this, prev
      ensures Valid() && Repr == old(Repr)
      ensures nodes == old(nodes[..k + 1] + nodes[k + 2..])
      ensures Contents() == old(Contents()[..k + 1] + Contents()[k + 2..])
    {
      ghost var was := nodes;
      UnlinkShape(was, k);
      prev.next := prev.next.next;
      nodes := nodes[..k + 1] + nodes[k + 2..];
      forall i | 0 <= i < |nodes| - 1 ensures nodes[i].next == nodes[i + 1] {
        if i < k {
          assert was[i] != prev;
        } else if i > k {
          assert was[i + 1] != prev;
        }
      }
      if k + 2 == |was| {
        assert nodes[|nodes| - 1] == prev;
      } else {
        assert nodes[|nodes| - 1] == was[|was| - 1] != prev;
      }
    }

    /** `print_list`: one line per node in list order and the count, or the empty-list message. */
    method PrintList() returns (printed: seq<Out>)
      requires Valid()
      ensures printed == Listing(Contents())
    {
      if head == null {
        return [NoBackgroundProcesses];
      }
      var curr := head;
      var count := 0;
      printed := [];
      while curr != null
        invariant 0 <= count <= |nodes|
        invariant curr == if count < |nodes| then nodes[count] else null
        invariant printed == EntryLines(Contents()[..count])
        decreases |nodes| - count
      {
        printed := printed + [ListEntry(curr.pid, curr.path)];
        count := count + 1;
        curr := curr.next;
      }
      assert Contents()[..count] == Contents();
      printed := printed + [ListTotal(count)];
    }
  }
}
