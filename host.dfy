/** The host scene graph as the resolver sees it: abstract nodes with fixed
    names, the DataModel root, and the host calls the resolver makes. What
    can change while the resolver is suspended (the children of a node, the
    "UniqueName" tags, the local player's character) is observed per tick of
    a `Timeline`. */
module HostTree {

  datatype Option<+T> = None | Some(value: T)

  /** An instance of the host tree, by identity. */
  type Node = nat

  datatype Host = Host(
    /** `game`, the only node for which `IsA("DataModel")` holds */
    dataModel: Node,
    /** `Instance.Name` */
    nameOf: Node -> string,
    /** `game.GetService(name)`; `None` when the host rejects the name (it throws) */
    service: string -> Option<Node>,
    /** `Players.LocalPlayer`; absent on the server */
    localPlayer: Option<Node>)

  /** `nodes.filter(a => a.Name === name)`, in the same order. */
  function Named(h: Host, nodes: seq<Node>, name: string): seq<Node>
  {
    if nodes == [] then []
    else (if h.nameOf(nodes[0]) == name then [nodes[0]] else []) + Named(h, nodes[1..], name)
  }

  /** `nodes.filter(a => a.Name === name)[0]`: the first node with that name. */
  function FirstNamed(h: Host, nodes: seq<Node>, name: string): Option<Node>
  {
    var matches := Named(h, nodes, name);
    if matches == [] then None else Some(matches[0])
  }

  /** `FirstNamed` is absent exactly when no node carries the name, and
      otherwise it is the node at the lowest index that does. */
  lemma {:induction false} FirstNamedIsFirstMatch(h: Host, nodes: seq<Node>, name: string)
    ensures FirstNamed(h, nodes, name).None? <==>
              forall i :: 0 <= i < |nodes| ==> h.nameOf(nodes[i]) != name
    ensures forall k :: 0 <= k < |nodes| && h.nameOf(nodes[k]) == name &&
                        (forall j :: 0 <= j < k ==> h.nameOf(nodes[j]) != name) ==>
                        FirstNamed(h, nodes, name) == Some(nodes[k])
  {
    if nodes != [] {
      FirstNamedIsFirstMatch(h, nodes[1..], name);
      if h.nameOf(nodes[0]) != name {
        assert Named(h, nodes, name) == Named(h, nodes[1..], name);
        forall k | 0 < k < |nodes| && h.nameOf(nodes[k]) == name &&
                   (forall j :: 0 <= j < k ==> h.nameOf(nodes[j]) != name)
          ensures FirstNamed(h, nodes, name) == Some(nodes[k])
        {
          assert nodes[1..][k - 1] == nodes[k];
          assert forall j :: 0 <= j < k - 1 ==> nodes[1..][j] == nodes[j + 1];
        }
        forall i | 0 <= i < |nodes[1..]| ensures nodes[1..][i] == nodes[i + 1] { }
      }
    }
  }

  /** A node of `nodes` with the name: `FirstNamed` picks a member, by name. */
  lemma {:induction false} FirstNamedIsNamedMember(h: Host, nodes: seq<Node>, name: string)
    ensures FirstNamed(h, nodes, name).Some? ==>
              FirstNamed(h, nodes, name).value in nodes && h.nameOf(FirstNamed(h, nodes, name).value) == name
  {
    if nodes != [] && h.nameOf(nodes[0]) != name {
      assert Named(h, nodes, name) == Named(h, nodes[1..], name);
      FirstNamedIsNamedMember(h, nodes[1..], name);
    }
  }

  /** `parent.FindFirstChild(name)` in a tree whose children are `children`:
      the first child with that name. */
  function FindFirstChild(h: Host, children: Node -> seq<Node>, parent: Node, name: string): Option<Node>
  {
    FirstNamed(h, children(parent), name)
  }

  /** What the calling coroutine observes when it resumes after a yield: the
      clock reading (`os.clock()`), the nodes tagged "UniqueName"
      (`CollectionService.GetTagged("UniqueName")`), the children of every
      node, and `LocalPlayer.Character`, all at that moment. */
  datatype Tick = Tick(at: real, tagged: seq<Node>, children: Node -> seq<Node>, character: Option<Node>)

  /** What is observed now, and the ticks still to come, one per yield of
      the calling coroutine. Nothing changes between yields. */
  datatype Timeline = Timeline(now: real, tagged: seq<Node>, children: Node -> seq<Node>, character: Option<Node>,
                               ahead: seq<Tick>)

  /** Resuming at tick `tk`, with `rest` still to come. */
  function ResumeAt(tk: Tick, rest: seq<Tick>): Timeline {
    Timeline(tk.at, tk.tagged, tk.children, tk.character, rest)
  }

  /** One yield (`RenderStepped.Wait()` or `task.wait()`): resume at the next tick. */
  function Advance(t: Timeline): (r: Timeline)
    requires t.ahead != []
    ensures |r.ahead| < |t.ahead|
  {
    ResumeAt(t.ahead[0], t.ahead[1..])
  }

  /** The timeline after `k` yields. */
  function After(t: Timeline, k: nat): (r: Timeline)
    requires k <= |t.ahead|
    ensures r.ahead == t.ahead[k..]
  {
    if k == 0 then t else ResumeAt(t.ahead[k - 1], t.ahead[k..])
  }

  /** One yield and then `k` more is `k + 1` yields. */
  lemma AfterAdvance(t: Timeline, k: nat)
    requires t.ahead != [] && k < |t.ahead|
    ensures After(Advance(t), k) == After(t, k + 1)
  {
    if k > 0 {
      assert Advance(t).ahead[k - 1] == t.ahead[k];
      assert Advance(t).ahead[k..] == t.ahead[k + 1..];
    }
  }

  /** `k` yields and then `m` more is `k + m` yields. */
  lemma AfterAfter(t: Timeline, k: nat, m: nat)
    requires k + m <= |t.ahead|
    ensures After(After(t, k), m) == After(t, k + m)
  {
    if k > 0 && m > 0 {
      assert After(t, k).ahead[m - 1] == t.ahead[k + m - 1];
      assert After(t, k).ahead[m..] == t.ahead[k + m..];
    }
  }

  /** `t2` is `t1` or a later moment of the same timeline. */
  ghost predicate Resumes(t1: Timeline, t2: Timeline) {
    exists k :: 0 <= k <= |t1.ahead| && t2 == After(t1, k)
  }

  /** A later moment of a later moment is a later moment. */
  lemma ResumesTransitive(t1: Timeline, t2: Timeline, t3: Timeline)
    requires Resumes(t1, t2) && Resumes(t2, t3)
    ensures Resumes(t1, t3)
  {
    var k :| 0 <= k <= |t1.ahead| && t2 == After(t1, k);
    var m :| 0 <= m <= |t2.ahead| && t3 == After(t2, m);
    AfterAfter(t1, k, m);
  }
}
