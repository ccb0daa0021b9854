/**
  Discovery in the library lineage (src/vpn.c:314-390): get_vpns reads the root
  folder, runs vpn_init on every subdirectory and links the instances into a singly
  linked list kept in ascending strcasecmp order by name.
 */
module VpnDiscovery {
  import opened Os
  import opened CStrings
  import opened VpnLib

  /**
    Insert d before the first descriptor whose name strcasecmp puts strictly after
    d's name, so that d lands after every name equal to its own.
   */
  function InsertByName(s: seq<Descriptor>, d: Descriptor): (r: seq<Descriptor>)
    ensures |r| == |s| + 1
  {
    if s == [] then [d]
    else if CaseCmp(s[0].name, d.name) > 0 then [d] + s
    else [s[0]] + InsertByName(s[1..], d)
  }

  /** Ascending under strcasecmp. */
  ghost predicate SortedByName(s: seq<Descriptor>)
  {
    forall i, j :: 0 <= i < j < |s| ==> CaseCmp(s[i].name, s[j].name) <= 0
  }

  /**
    The list get_vpns has built after reading the entries `es` in order, or None once
    some vpn_init has failed (get_vpns then returns NULL).
   */
  function Scan(root: string, es: seq<DirEntry>): Option<seq<Descriptor>>
  {
    if es == [] then Some([])
    else
      var prev := Scan(root, es[..|es| - 1]);
      var e := es[|es| - 1];
      if prev.None? || !IsInstanceDir(e) then prev
      else match InitDescriptor(root, e.name, e.env)
        case None => None
        case Some(d) => Some(InsertByName(prev.value, d))
  }

  /** The reference: the initialised instances in the order readdir returns them. */
  function Initialized(root: string, es: seq<DirEntry>): Option<seq<Descriptor>>
  {
    if es == [] then Some([])
    else
      var prev := Initialized(root, es[..|es| - 1]);
      var e := es[|es| - 1];
      if prev.None? || !IsInstanceDir(e) then prev
      else match InitDescriptor(root, e.name, e.env)
        case None => None
        case Some(d) => Some(prev.value + [d])
  }

  /**
    Where the insertion lands: if every name before position k is not greater than
    d's and the one at k is greater, d goes exactly at k.
   */
  lemma {:induction false} InsertByNameAt(s: seq<Descriptor>, d: Descriptor, k: nat)
    requires k <= |s|
    requires forall i :: 0 <= i < k ==> CaseCmp(s[i].name, d.name) <= 0
    requires k < |s| ==> CaseCmp(s[k].name, d.name) > 0
    ensures InsertByName(s, d) == s[..k] + [d] + s[k..]
  {
    if k > 0 {
      InsertByNameAt(s[1..], d, k - 1);
      assert s[1..][..k - 1] == s[..k][1..];
      assert s[1..][k - 1..] == s[k..];
      assert s[..k] == [s[0]] + s[..k][1..];
    }
  }

  /** Insertion adds exactly the new element. */
  lemma {:induction false} InsertByNameMultiset(s: seq<Descriptor>, d: Descriptor)
    ensures multiset(InsertByName(s, d)) == multiset(s) + multiset{d}
  {
    if s != [] && CaseCmp(s[0].name, d.name) <= 0 {
      InsertByNameMultiset(s[1..], d);
      assert s == [s[0]] + s[1..];
    }
  }

  lemma SortedTail(s: seq<Descriptor>)
    requires s != [] && SortedByName(s)
    ensures SortedByName(s[1..])
  {
    forall i, j | 0 <= i < j < |s| - 1
      ensures CaseCmp(s[1..][i].name, s[1..][j].name) <= 0
    {
      assert s[1..][i] == s[i + 1] && s[1..][j] == s[j + 1];
    }
  }

  lemma SortedCons(x: Descriptor, t: seq<Descriptor>)
    requires SortedByName(t)
    requires forall j :: 0 <= j < |t| ==> CaseCmp(x.name, t[j].name) <= 0
    ensures SortedByName([x] + t)
  {
    var r := [x] + t;
    forall i, j | 0 <= i < j < |r|
      ensures CaseCmp(r[i].name, r[j].name) <= 0
    {
      if i == 0 {
        assert r[j] == t[j - 1];
      } else {
        assert r[i] == t[i - 1] && r[j] == t[j - 1];
      }
    }
  }

  /** Insertion keeps the list sorted and adds exactly one element. */
  lemma {:induction false} InsertByNameSorted(s: seq<Descriptor>, d: Descriptor)
    requires SortedByName(s)
    ensures SortedByName(InsertByName(s, d))
    ensures multiset(InsertByName(s, d)) == multiset(s) + multiset{d}
  {
    InsertByNameMultiset(s, d);
    if s == [] {
    } else if CaseCmp(s[0].name, d.name) > 0 {
      CaseCmpAntisymmetric(s[0].name, d.name);
      forall j | 0 <= j < |s|
        ensures CaseCmp(d.name, s[j].name) <= 0
      {
        if j > 0 {
          CaseCmpTransitive(d.name, s[0].name, s[j].name);
        }
      }
      SortedCons(d, s);
    } else {
      var tail := InsertByName(s[1..], d);
      SortedTail(s);
      InsertByNameSorted(s[1..], d);
      forall j | 0 <= j < |tail|
        ensures CaseCmp(s[0].name, tail[j].name) <= 0
      {
        assert tail[j] in multiset(tail);
        if tail[j] != d {
          assert tail[j] in multiset(s[1..]);
          var m :| 0 <= m < |s[1..]| && s[1..][m] == tail[j];
          assert s[m + 1] == tail[j];
        }
      }
      SortedCons(s[0], tail);
    }
  }

  /** Once a vpn_init has failed, reading further entries cannot bring the list back. */
  lemma {:induction false} ScanStaysFailed(root: string, es: seq<DirEntry>, i: nat)
    requires i <= |es| && Scan(root, es[..i]).None?
    ensures Scan(root, es).None?
  {
    if i < |es| {
      assert es[..|es| - 1][..i] == es[..i];
      ScanStaysFailed(root, es[..|es| - 1], i);
    } else {
      assert es[..i] == es;
    }
  }

  /**
    get_vpns's list is the read-order list of initialised instances, sorted: it exists
    exactly when that list does, it is ascending under strcasecmp, and it holds the
    same instances.
   */
  lemma {:induction false} ScanIsSortedPermutation(root: string, es: seq<DirEntry>)
    ensures Scan(root, es).Some? <==> Initialized(root, es).Some?
    ensures Scan(root, es).Some? ==>
      SortedByName(Scan(root, es).value) &&
      multiset(Scan(root, es).value) == multiset(Initialized(root, es).value)
  {
    if es != [] {
      ScanIsSortedPermutation(root, es[..|es| - 1]);
      var prev := Scan(root, es[..|es| - 1]);
      var e := es[|es| - 1];
      if prev.Some? && IsInstanceDir(e) && InitDescriptor(root, e.name, e.env).Some? {
        InsertByNameSorted(prev.value, InitDescriptor(root, e.name, e.env).value);
      }
    }
  }

  /** The scan fails exactly when vpn_init fails on some subdirectory. */
  lemma {:induction false} InitializedFailsIff(root: string, es: seq<DirEntry>)
    ensures Initialized(root, es).None? <==>
      exists i :: 0 <= i < |es| && IsInstanceDir(es[i]) && InitDescriptor(root, es[i].name, es[i].env).None?
  {
    if es != [] {
      var init := es[..|es| - 1];
      InitializedFailsIff(root, init);
      if Initialized(root, init).None? {
        var i :| 0 <= i < |init| && IsInstanceDir(init[i]) && InitDescriptor(root, init[i].name, init[i].env).None?;
        assert es[i] == init[i];
      } else if exists i :: 0 <= i < |es| && IsInstanceDir(es[i]) && InitDescriptor(root, es[i].name, es[i].env).None? {
        var i :| 0 <= i < |es| && IsInstanceDir(es[i]) && InitDescriptor(root, es[i].name, es[i].env).None?;
        if i < |init| {
          assert init[i] == es[i];
        }
      }
    }
  }

  /** head and the ghost sequence `nodes` form a NULL-terminated, acyclic list. */
  ghost predicate IsList(head: Vpn?, nodes: seq<Vpn>)
    reads nodes
  {
    && (head == null <==> nodes == [])
    && (nodes != [] ==> head == nodes[0] && nodes[|nodes| - 1].next == null)
    && (forall i :: 0 <= i < |nodes| - 1 ==> nodes[i].next == nodes[i + 1])
    && (forall i, j :: 0 <= i < j < |nodes| ==> nodes[i] != nodes[j])
  }

  /**
    The inner while(1) loop of get_vpns (src/vpn.c:342-383): walk from head with
    t_vpn and prev until a strictly greater name or the end of the list, and splice
    the new node in there.
   */
  method InsertNode(head: Vpn?, ghost nodes: seq<Vpn>, ghost ds: seq<Descriptor>, nv: Vpn, ghost d: Descriptor)
    returns (newHead: Vpn, ghost newNodes: seq<Vpn>)
    requires IsList(head, nodes) && nv !in nodes && nv.next == null
    requires |ds| == |nodes| && forall m :: 0 <= m < |nodes| ==> nodes[m].Fields() == ds[m]
    requires nv.Fields() == d
    modifies nodes, nv
    ensures IsList(newHead, newNodes)
    ensures |newNodes| == |ds| + 1
    ensures forall m :: 0 <= m < |newNodes| ==> newNodes[m].Fields() == InsertByName(ds, d)[m]
    ensures forall m :: 0 <= m < |newNodes| ==> newNodes[m] in nodes || newNodes[m] == nv
  {
    if head == null {
      newHead := nv;
      newNodes := [nv];
      return;
    }
    var t: Vpn := head;
    var prev: Vpn? := null;
    var before := false;
    ghost var k := 0;
    while true
      invariant 0 <= k < |nodes| && t == nodes[k]
      invariant prev == (if k == 0 then null else nodes[k - 1])
      invariant forall m :: 0 <= m < k ==> CaseCmp(ds[m].name, d.name) <= 0
      decreases |nodes| - k
    {
      var cmp := CaseCmp(t.name, nv.name);
      if cmp > 0 {
        before := true;
        break;
      } else if t.next == null {
        break;
      }
      prev := t;
      t := t.next;
      k := k + 1;
    }
    if before {
      newHead, newNodes := LinkBefore(head, nodes, ds, nv, d, prev, t, k);
    } else {
      newHead, newNodes := LinkAtEnd(head, nodes, ds, nv, d, t, k);
    }
  }

  /**
    The cmp > 0 branch (src/vpn.c:354-368): new->next = t_vpn, prev->next = new when
    there is a prev, and new becomes the head when t_vpn was the head.
   */
  method LinkBefore(head: Vpn, ghost nodes: seq<Vpn>, ghost ds: seq<Descriptor>, nv: Vpn, ghost d: Descriptor,
                    prev: Vpn?, t: Vpn, ghost k: nat)
    returns (newHead: Vpn, ghost newNodes: seq<Vpn>)
    requires IsList(head, nodes) && nv !in nodes && nv.next == null
    requires |ds| == |nodes| && forall m :: 0 <= m < |nodes| ==> nodes[m].Fields() == ds[m]
    requires nv.Fields() == d
    requires k < |nodes| && t == nodes[k] && prev == (if k == 0 then null else nodes[k - 1])
    requires forall m :: 0 <= m < k ==> CaseCmp(ds[m].name, d.name) <= 0
    requires CaseCmp(t.name, nv.name) > 0
    modifies nodes, nv
    ensures IsList(newHead, newNodes)
    ensures |newNodes| == |ds| + 1
    ensures forall m :: 0 <= m < |newNodes| ==> newNodes[m].Fields() == InsertByName(ds, d)[m]
    ensures forall m :: 0 <= m < |newNodes| ==> newNodes[m] in nodes || newNodes[m] == nv
  {
    assert t.Fields() == ds[k];
    nv.next := t;
    if prev != null {
      prev.next := nv;
    }
    newHead := head;
    if t == head {
      newHead := nv;
    }
    newNodes := nodes[..k] + [nv] + nodes[k..];
    InsertByNameAt(ds, d, k);
    SplicedList(nodes, newNodes, nv, k);
    SplicedFields(nodes, newNodes, nv, ds, d, k);
  }

  /** The end-of-list branch (src/vpn.c:370-375): t_vpn->next = new. */
  method LinkAtEnd(head: Vpn, ghost nodes: seq<Vpn>, ghost ds: seq<Descriptor>, nv: Vpn, ghost d: Descriptor,
                   t: Vpn, ghost k: nat)
    returns (newHead: Vpn, ghost newNodes: seq<Vpn>)
    requires IsList(head, nodes) && nv !in nodes && nv.next == null
    requires |ds| == |nodes| && forall m :: 0 <= m < |nodes| ==> nodes[m].Fields() == ds[m]
    requires nv.Fields() == d
    requires k < |nodes| && t == nodes[k] && t.next == null
    requires forall m :: 0 <= m < k ==> CaseCmp(ds[m].name, d.name) <= 0
    requires CaseCmp(t.name, nv.name) <= 0
    modifies nodes, nv
    ensures IsList(newHead, newNodes)
    ensures |newNodes| == |ds| + 1
    ensures forall m :: 0 <= m < |newNodes| ==> newNodes[m].Fields() == InsertByName(ds, d)[m]
    ensures forall m :: 0 <= m < |newNodes| ==> newNodes[m] in nodes || newNodes[m] == nv
  {
    assert t.Fields() == ds[k];
    forall i | 0 <= i < |nodes| - 1
      ensures nodes[i].next != null
    {
      assert nodes[i].next == nodes[i + 1];
    }
    assert k == |nodes| - 1;
    t.next := nv;
    newHead := head;
    newNodes := nodes + [nv];
    InsertByNameAt(ds, d, |nodes|);
    assert ds[..|nodes|] + [d] + ds[|nodes|..] == ds + [d];
    assert nodes[..|nodes|] + [nv] + nodes[|nodes|..] == newNodes;
    SplicedFields(nodes, newNodes, nv, ds, d, |nodes|);
  }

  /** Splicing nv in at position k puts its fields at k and shifts the rest. */
  lemma SplicedFields(nodes: seq<Vpn>, newNodes: seq<Vpn>, nv: Vpn, ds: seq<Descriptor>, d: Descriptor, k: nat)
    requires k <= |nodes| && newNodes == nodes[..k] + [nv] + nodes[k..]
    requires |ds| == |nodes| && forall m :: 0 <= m < |nodes| ==> nodes[m].Fields() == ds[m]
    requires nv.Fields() == d
    ensures forall m :: 0 <= m < |newNodes| ==> newNodes[m].Fields() == (ds[..k] + [d] + ds[k..])[m]
  {
    forall m | 0 <= m < |newNodes|
      ensures newNodes[m].Fields() == (ds[..k] + [d] + ds[k..])[m]
    {
      if m < k {
        assert newNodes[m] == nodes[m];
      } else if m > k {
        assert newNodes[m] == nodes[m - 1];
      }
    }
  }

  /** After splicing nv in at position k, the nodes still form a list. */
  lemma SplicedList(nodes: seq<Vpn>, newNodes: seq<Vpn>, nv: Vpn, k: nat)
    requires k < |nodes| && newNodes == nodes[..k] + [nv] + nodes[k..]
    requires nv !in nodes && nv.next == nodes[k]
    requires k > 0 ==> nodes[k - 1].next == nv
    requires forall i :: 0 <= i < |nodes| - 1 && i != k - 1 ==> nodes[i].next == nodes[i + 1]
    requires nodes[|nodes| - 1].next == null || (k > 0 && k - 1 == |nodes| - 1)
    requires forall i, j :: 0 <= i < j < |nodes| ==> nodes[i] != nodes[j]
    ensures IsList(newNodes[0], newNodes)
  {
  }

  /**
    get_vpns: exit when the root folder cannot be opened; return NULL as soon as one
    vpn_init fails; otherwise return the head of a list that holds exactly the
    descriptors Scan describes, in that order, in freshly allocated nodes.
   */
  method GetVpns(root: string, rootOpens: bool, entries: seq<DirEntry>)
    returns (exited: bool, head: Vpn?, ghost nodes: seq<Vpn>)
    ensures exited <==> !rootOpens
    ensures exited || Scan(root, entries).None? ==> head == null && nodes == []
    ensures !exited && Scan(root, entries).Some? ==>
      && IsList(head, nodes)
      && |nodes| == |Scan(root, entries).value|
      && (forall m :: 0 <= m < |nodes| ==> nodes[m].Fields() == Scan(root, entries).value[m])
      && (forall m :: 0 <= m < |nodes| ==> fresh(nodes[m]))
  {
    if !rootOpens {
      return true, null, [];
    }
    exited := false;
    head := null;
    nodes := [];
    ghost var ds: seq<Descriptor> := [];
    var i := 0;
    while i < |entries|
      invariant 0 <= i <= |entries|
      invariant Scan(root, entries[..i]) == Some(ds)
      invariant IsList(head, nodes)
      invariant |nodes| == |ds| && forall m :: 0 <= m < |nodes| ==> nodes[m].Fields() == ds[m]
      invariant forall m :: 0 <= m < |nodes| ==> fresh(nodes[m])
    {
      var e := entries[i];
      assert entries[..i + 1][..i] == entries[..i];
      if e.name == "." || e.name == ".." {
        i := i + 1;
        continue;
      }
      if e.isDir {
        var nv := new Vpn();
        var rc, warned := nv.Init(root, e.name, e.env);
        if rc != 0 {
          ScanStaysFailed(root, entries, i + 1);
          return false, null, [];
        }
        ghost var d := nv.Fields();
        head, nodes := InsertNode(head, nodes, ds, nv, d);
        ds := InsertByName(ds, d);
      }
      i := i + 1;
    }
    assert entries[..i] == entries;
  }
}
