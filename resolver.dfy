/** `RQuery.UnreliablePath` and `RQuery.Path`: a path such as
    `Workspace\*Baseplate\@Texture` is split on `\`, each piece is trimmed,
    blank pieces are skipped, the first raw piece may be a root alias, and
    every other piece is classified by its sigil and moves a possibly-absent
    cursor through the host tree.

    `Step`, `Run` and `Resolve` are the specification; the method
    `UnreliablePath` is the `for` loop of `RQuery.UnreliablePath`, proved
    equal to `Resolve`. */
module PathResolver {
  import opened Text
  import opened HostTree

  const Separator: char := '\\'

  /** The literal the `*@` loop compares elapsed time against. */
  const WaitLimit: real := 5.0

  /** How one resolution ends. */
  datatype Outcome =
    /** the loop ran to the end; the function returns the cursor (`undefined` if absent) */
    | Returned(node: Option<Node>)
    /** a `*@name` wait gave up: one warning is printed and `undefined` is returned */
    | TimedOut(name: string, path: string)
    /** a host call threw (an invalid service name, or indexing an absent `LocalPlayer`) */
    | Threw
    /** a host wait never returned, or the modelled ticks ran out inside a `*@` wait */
    | Stuck

  /** The warnings a resolution prints: one when a `*@` wait gives up, none otherwise. */
  function Warnings(o: Outcome): seq<string> {
    match o
    case TimedOut(name, path) => ["Infinite yield possible on @" + name + " trying to parse on " + path]
    case _ => []
  }

  predicate HasPrefix(s: string, p: string) {
    |p| <= |s| && s[..|p|] == p
  }

  /** What processing one piece leads to. */
  datatype Next = Go(cursor: Option<Node>, time: Timeline) | Halt(outcome: Outcome)

  /** The end of a wait: what it delivered and when, a `*@` give-up, or no
      end within the modelled ticks. */
  datatype Wait = Found(node: Node, time: Timeline) | GaveUp | OutOfTicks

  /** The `*@name` loop: yield, read the clock, give up once the time since
      `start` reaches the literal 5, otherwise look for the first node tagged
      "UniqueName" with that name, and repeat while there is none. */
  function AwaitUnique(h: Host, name: string, start: real, t: Timeline): Wait
    decreases |t.ahead|
  {
    if t.ahead == [] then OutOfTicks
    else
      var t' := Advance(t);
      if t'.now - start >= WaitLimit then GaveUp
      else match FirstNamed(h, t'.tagged, name)
        case Some(n) => Found(n, t')
        case None => AwaitUnique(h, name, start, t')
  }

  /** What a blocking host call waits for: a child of that name
      (`parent.WaitForChild(name)`), or the local player's character
      (`player.Character ?? player.CharacterAdded.Wait()[0]`). */
  datatype Event = ChildNamed(parent: Node, name: string) | LocalCharacter

  /** The event as seen at the current moment of `t`. */
  function Observed(h: Host, t: Timeline, e: Event): Option<Node> {
    match e
    case ChildNamed(parent, name) => FindFirstChild(h, t.children, parent, name)
    case LocalCharacter => t.character
  }

  /** A blocking host call: it returns at once when the event is there, and
      otherwise yields until the first tick at which it is. */
  function AwaitEvent(h: Host, e: Event, t: Timeline): Wait
    decreases |t.ahead|
  {
    match Observed(h, t, e)
    case Some(n) => Found(n, t)
    case None => if t.ahead == [] then OutOfTicks else AwaitEvent(h, e, Advance(t))
  }

  /** A blocking host call continues the resolution with what it delivered,
      or never returns. */
  function Delivered(w: Wait): Next {
    match w
    case Found(n, t') => Go(Some(n), t')
    case _ => Halt(Stuck)
  }

  /** The root aliases that replace the cursor and skip the rest of the piece. */
  predicate IsCursorAlias(fix: string) {
    fix == "Server" || fix == "Client" || fix == "LocalPlayer" || fix == "Character" || fix == "Gui"
  }

  /** The node a cursor alias stands for. */
  function AliasTarget(h: Host, fix: string, t: Timeline): Next
    requires IsCursorAlias(fix)
  {
    if fix == "Server" then
      match h.service("ServerScriptService")
      case None => Halt(Threw)
      case Some(sss) => Delivered(AwaitEvent(h, ChildNamed(sss, "TS"), t))
    else if fix == "LocalPlayer" then
      Go(h.localPlayer, t)
    else
      match h.localPlayer
      case None => Halt(Threw)
      case Some(player) =>
        if fix == "Client" then
          match AwaitEvent(h, ChildNamed(player, "PlayerScripts"), t)
          case Found(scripts, t') => Delivered(AwaitEvent(h, ChildNamed(scripts, "TS"), t'))
          case _ => Halt(Stuck)
        else if fix == "Character" then
          Delivered(AwaitEvent(h, LocalCharacter, t))
        else
          Delivered(AwaitEvent(h, ChildNamed(player, "PlayerGui"), t))
  }

  /** Sigil classification of a non-blank piece, in the order of the
      TypeScript `if` chain: `*@`, then `@`, then "the cursor is the
      DataModel", then `*`, then plain. */
  function Lookup(h: Host, path: string, t: Timeline, cursor: Option<Node>, fix: string): Next
  {
    if HasPrefix(fix, "*@") then
      var name := fix[2..];
      match AwaitUnique(h, name, t.now, t)
      case Found(n, t') => Go(Some(n), t')
      case GaveUp => Halt(TimedOut(name, path))
      case OutOfTicks => Halt(Stuck)
    else if HasPrefix(fix, "@") then
      Go(FirstNamed(h, t.tagged, fix[1..]), t)
    else if cursor == Some(h.dataModel) then
      match h.service(fix)
      case Some(s) => Go(Some(s), t)
      case None => Halt(Threw)
    else if HasPrefix(fix, "*") then
      match cursor
      case None => Go(None, t)
      case Some(c) => Delivered(AwaitEvent(h, ChildNamed(c, fix[1..]), t))
    else
      Go(if cursor.Some? then FindFirstChild(h, t.children, cursor.value, fix) else None, t)
  }

  /** One raw piece at 1-based split index `i`. */
  function Step(h: Host, path: string, t: Timeline, cursor: Option<Node>, i: nat, raw: string): Next
  {
    var fix := Trim(raw);
    if fix == "" then Go(cursor, t)
    else if i == 1 && IsCursorAlias(fix) then AliasTarget(h, fix, t)
    else Lookup(h, path, t, cursor, if i == 1 && fix == "Shared" then "ReplicatedStorage" else fix)
  }

  /** The pieces from split index `i` on. */
  function Run(h: Host, path: string, t: Timeline, cursor: Option<Node>, pieces: seq<string>, i: nat): Outcome
    decreases |pieces|
  {
    if pieces == [] then Returned(cursor)
    else match Step(h, path, t, cursor, i, pieces[0])
      case Go(c, t') => Run(h, path, t', c, pieces[1..], i + 1)
      case Halt(o) => o
  }

  /** The default parameter `parent = game`: an absent parent is the DataModel. */
  function Start(h: Host, parent: Option<Node>): Node {
    match parent
    case Some(p) => p
    case None => h.dataModel
  }

  /** The whole resolution. `timeout` is accepted and never read. */
  function Resolve(h: Host, t: Timeline, path: string, parent: Option<Node>, timeout: real): Outcome {
    Run(h, path, t, Some(Start(h, parent)), Split(path, Separator), 1)
  }

  /** A root alias ignores the cursor and takes the piece over entirely. */
  lemma StepAlias(h: Host, path: string, t: Timeline, cursor: Option<Node>, i: nat, raw: string)
    requires i == 1 && IsCursorAlias(Trim(raw))
    ensures Step(h, path, t, cursor, i, raw) == AliasTarget(h, Trim(raw), t)
  {
  }

  /** Any other non-blank piece goes to sigil classification, `Shared` first
      rewritten when it is the first raw piece. */
  lemma StepLookup(h: Host, path: string, t: Timeline, cursor: Option<Node>, i: nat, raw: string)
    requires Trim(raw) != "" && !(i == 1 && IsCursorAlias(Trim(raw)))
    ensures Step(h, path, t, cursor, i, raw) ==
            Lookup(h, path, t, cursor, if i == 1 && Trim(raw) == "Shared" then "ReplicatedStorage" else Trim(raw))
  {
  }

  /** `Run` after a piece that moves on. */
  lemma RunGo(h: Host, path: string, t: Timeline, cursor: Option<Node>, pieces: seq<string>, i: nat,
              cursor': Option<Node>, t': Timeline)
    requires pieces != [] && Step(h, path, t, cursor, i, pieces[0]) == Go(cursor', t')
    ensures Run(h, path, t, cursor, pieces, i) == Run(h, path, t', cursor', pieces[1..], i + 1)
  {
  }

  /** `Run` after a piece that ends the resolution: later pieces are never looked at. */
  lemma RunHalt(h: Host, path: string, t: Timeline, cursor: Option<Node>, pieces: seq<string>, i: nat,
                o: Outcome)
    requires pieces != [] && Step(h, path, t, cursor, i, pieces[0]) == Halt(o)
    ensures Run(h, path, t, cursor, pieces, i) == o
  {
  }

  /** `Run` from the piece at 0-based position `k`, given what that piece leads to. */
  lemma RunPiece(h: Host, path: string, t: Timeline, cursor: Option<Node>, pieces: seq<string>, k: nat, next: Next)
    requires k < |pieces| && next == Step(h, path, t, cursor, k + 1, pieces[k])
    ensures next.Halt? ==> Run(h, path, t, cursor, pieces[k..], k + 1) == next.outcome
    ensures next.Go? ==> Run(h, path, t, cursor, pieces[k..], k + 1) ==
                         Run(h, path, next.time, next.cursor, pieces[k + 1..], k + 2)
  {
    assert pieces[k..][0] == pieces[k] && pieces[k..][1..] == pieces[k + 1..];
    if next.Halt? {
      RunHalt(h, path, t, cursor, pieces[k..], k + 1, next.outcome);
    } else {
      RunGo(h, path, t, cursor, pieces[k..], k + 1, next.cursor, next.time);
    }
  }

  /** The `*@name` polling loop of `UnreliablePath`: `start` is read once,
      before the first yield, and never reset. */
  method PollUnique(h: Host, name: string, t0: Timeline) returns (w: Wait)
    ensures w == AwaitUnique(h, name, t0.now, t0)
  {
    var t := t0;
    var erug: Option<Node> := None;
    var start := t.now;
    while erug == None
      invariant erug == None ==> AwaitUnique(h, name, start, t0) == AwaitUnique(h, name, start, t)
      invariant erug != None ==> AwaitUnique(h, name, start, t0) == Found(erug.value, t)
      decreases |t.ahead|, if erug == None then 1 else 0
    {
      if t.ahead == [] {
        return OutOfTicks;
      }
      t := Advance(t);
      var elapsed := t.now - start;
      if elapsed >= WaitLimit {
        return GaveUp;
      }
      erug := FirstNamed(h, t.tagged, name);
    }
    w := Found(erug.value, t);
  }

  /** The body of the loop in `UnreliablePath` for raw piece `v` at split
      index `i`: `continue` is `Go`, an early `return` is `Halt`. */
  method ResolvePiece(h: Host, path: string, t: Timeline, guh: Option<Node>, i: nat, v: string)
    returns (next: Next)
    ensures next == Step(h, path, t, guh, i, v)
  {
    var fix := Trim(v);
    if fix == "" {
      return Go(guh, t);
    }
    if i == 1 {
      if fix == "Shared" {
        fix := "ReplicatedStorage";
      } else if IsCursorAlias(fix) {
        StepAlias(h, path, t, guh, i, v);
        return AliasTarget(h, fix, t);
      }
    }
    StepLookup(h, path, t, guh, i, v);
    if HasPrefix(fix, "*@") {
      var name := fix[2..];
      var erug := PollUnique(h, name, t);
      match erug
      case Found(n, t') => {
        return Go(Some(n), t');
      }
      case GaveUp => {
        return Halt(TimedOut(name, path));
      }
      case OutOfTicks => {
        return Halt(Stuck);
      }
    } else if HasPrefix(fix, "@") {
      return Go(FirstNamed(h, t.tagged, fix[1..]), t);
    } else if guh == Some(h.dataModel) {
      var s := h.service(fix);
      if s == None {
        return Halt(Threw);
      }
      return Go(s, t);
    } else if HasPrefix(fix, "*") {
      if guh == None {
        return Go(None, t);
      }
      var child := AwaitEvent(h, ChildNamed(guh.value, fix[1..]), t);
      if !child.Found? {
        return Halt(Stuck);
      }
      return Go(Some(child.node), child.time);
    } else {
      return Go(if guh != None then FindFirstChild(h, t.children, guh.value, fix) else None, t);
    }
  }

  /** `RQuery.UnreliablePath(path, parent, timeout)`: the `for` loop over the
      split pieces, where `continue` moves to the next piece and an early
      `return` ends the resolution. */
  method UnreliablePath(h: Host, t0: Timeline, path: string, parent: Option<Node>, timeout: real)
    returns (o: Outcome)
    ensures o == Resolve(h, t0, path, parent, timeout)
  {
    var guh: Option<Node> := Some(Start(h, parent));
    var t := t0;
    var pieces := Split(path, Separator);
    var k := 0;
    assert pieces[k..] == pieces;
    while k < |pieces|
      invariant k <= |pieces|
      invariant Resolve(h, t0, path, parent, timeout) == Run(h, path, t, guh, pieces[k..], k + 1)
    {
      var next := ResolvePiece(h, path, t, guh, k + 1, pieces[k]);
      RunPiece(h, path, t, guh, pieces, k, next);
      if next.Halt? {
        return next.outcome;
      }
      guh, t := next.cursor, next.time;
      k := k + 1;
    }
    o := Returned(guh);
  }

  /** `RQuery.Path`: the same resolution; its non-absent result type is a cast
      the caller relies on, not something it checks. */
  method Path(h: Host, t0: Timeline, path: string, parent: Option<Node>, timeout: real)
    returns (o: Outcome)
    ensures o == Resolve(h, t0, path, parent, timeout)
  {
    o := UnreliablePath(h, t0, path, parent, timeout);
  }
}
