/** What the resolution promises, stated over the specification functions
    of `PathResolver`. */
module ResolverProperties {
  import opened Text
  import opened HostTree
  import opened PathResolver

  /** How the sigils overlap: `*@` extends `*`, and `@` excludes both. */
  lemma SigilPrefixes(s: string)
    ensures HasPrefix(s, "*@") ==> HasPrefix(s, "*") && !HasPrefix(s, "@")
    ensures HasPrefix(s, "@") ==> !HasPrefix(s, "*")
  {
    if HasPrefix(s, "*@") {
      assert s[0] == '*';
      assert s[..1] == "*";
    }
    if HasPrefix(s, "@") {
      assert s[0] == '@';
    }
  }

  /** A name starting with neither `*` nor `@` carries no sigil. */
  lemma PlainName(s: string)
    requires |s| > 0 && s[0] != '*' && s[0] != '@'
    ensures !HasPrefix(s, "*@") && !HasPrefix(s, "@") && !HasPrefix(s, "*")
  {
    assert s[..1][0] == s[0];
    if |s| >= 2 {
      assert s[..2][0] == s[0];
    }
  }

  /** A `*@` piece is never an alias: it goes to sigil classification at any index. */
  lemma UniqueWaitIsNoAlias(h: Host, path: string, t: Timeline, cursor: Option<Node>, i: nat, raw: string)
    requires HasPrefix(Trim(raw), "*@")
    ensures Step(h, path, t, cursor, i, raw) == Lookup(h, path, t, cursor, Trim(raw))
  {
    var fix := Trim(raw);
    assert fix[0] == '*';
    assert !IsCursorAlias(fix) && fix != "Shared";
    StepLookup(h, path, t, cursor, i, raw);
  }

  /** Pieces made only of white space change nothing. */
  lemma {:induction false} BlankPiecesKeepCursor(h: Host, path: string, t: Timeline, cursor: Option<Node>,
                                                 pieces: seq<string>, i: nat)
    requires forall j :: 0 <= j < |pieces| ==> AllSpace(pieces[j])
    ensures Run(h, path, t, cursor, pieces, i) == Returned(cursor)
  {
    if pieces != [] {
      TrimSpec(pieces[0]);
      assert forall j :: 0 <= j < |pieces[1..]| ==> pieces[1..][j] == pieces[j + 1];
      BlankPiecesKeepCursor(h, path, t, cursor, pieces[1..], i + 1);
    }
  }

  /** A path of nothing but white space and separators, `""` included,
      returns the starting parent (the DataModel when none is given). */
  lemma BlankPathReturnsStart(h: Host, t: Timeline, path: string, parent: Option<Node>, timeout: real)
    requires forall j :: 0 <= j < |path| ==> IsSpace(path[j]) || path[j] == Separator
    ensures Resolve(h, t, path, parent, timeout) == Returned(Some(Start(h, parent)))
  {
    var pieces := Split(path, Separator);
    SplitPieces(path, Separator);
    forall j | 0 <= j < |pieces| ensures AllSpace(pieces[j]) {
      forall m | 0 <= m < |pieces[j]| ensures IsSpace(pieces[j][m]) {
        assert pieces[j][m] in path && pieces[j][m] != Separator;
      }
    }
    BlankPiecesKeepCursor(h, path, t, Some(Start(h, parent)), pieces, 1);
  }

  /** The resolution without any root alias: every non-blank piece goes
      straight to sigil classification. */
  function RunLookups(h: Host, path: string, t: Timeline, cursor: Option<Node>, pieces: seq<string>): Outcome
    decreases |pieces|
  {
    if pieces == [] then Returned(cursor)
    else if Trim(pieces[0]) == "" then RunLookups(h, path, t, cursor, pieces[1..])
    else match Lookup(h, path, t, cursor, Trim(pieces[0]))
      case Go(c, t') => RunLookups(h, path, t', c, pieces[1..])
      case Halt(o) => o
  }

  /** From raw split index 2 on, no piece is ever taken for a root alias,
      not even `Server` or `Shared`. */
  lemma {:induction false} LaterPiecesAreNeverAliases(h: Host, path: string, t: Timeline, cursor: Option<Node>,
                                                      pieces: seq<string>, i: nat)
    requires i >= 2
    ensures Run(h, path, t, cursor, pieces, i) == RunLookups(h, path, t, cursor, pieces)
    decreases |pieces|
  {
    if pieces != [] {
      match Step(h, path, t, cursor, i, pieces[0])
      case Go(c, t') => {
        LaterPiecesAreNeverAliases(h, path, t', c, pieces[1..], i + 1);
      }
      case Halt(_) => {
      }
    }
  }

  /** The alias check is on the raw split index: when the text before the
      first separator is blank, no piece of the path is an alias. */
  lemma BlankFirstPieceDisablesAliases(h: Host, t: Timeline, path: string, parent: Option<Node>, timeout: real)
    requires Trim(Split(path, Separator)[0]) == ""
    ensures Resolve(h, t, path, parent, timeout) ==
            RunLookups(h, path, t, Some(Start(h, parent)), Split(path, Separator)[1..])
  {
    LaterPiecesAreNeverAliases(h, path, t, Some(Start(h, parent)), Split(path, Separator)[1..], 2);
  }

  /** In particular a leading `\`: `\Server\X` looks up `Server` like any name. */
  lemma LeadingSeparatorDisablesAliases(h: Host, t: Timeline, path: string, parent: Option<Node>, timeout: real)
    requires |path| > 0 && path[0] == Separator
    ensures Resolve(h, t, path, parent, timeout) ==
            RunLookups(h, path, t, Some(Start(h, parent)), Split(path[1..], Separator))
  {
    assert Split(path, Separator) == [[]] + Split(path[1..], Separator);
    BlankFirstPieceDisablesAliases(h, t, path, parent, timeout);
  }

  /** `Shared` as the first raw piece is rewritten to `ReplicatedStorage` and
      classified in the same iteration (a service fetch at the DataModel);
      anywhere else it is an ordinary name. */
  lemma SharedIsRewrittenThenClassified(h: Host, path: string, t: Timeline, cursor: Option<Node>, raw: string)
    requires Trim(raw) == "Shared"
    ensures Step(h, path, t, cursor, 1, raw) == Lookup(h, path, t, cursor, "ReplicatedStorage")
    ensures cursor == Some(h.dataModel) ==>
              Step(h, path, t, cursor, 1, raw) ==
              (if h.service("ReplicatedStorage").Some? then Go(h.service("ReplicatedStorage"), t) else Halt(Threw))
    ensures forall i :: i != 1 ==> Step(h, path, t, cursor, i, raw) == Lookup(h, path, t, cursor, "Shared")
  {
    PlainName("ReplicatedStorage");
  }

  /** `Server`, `Client`, `LocalPlayer`, `Character` and `Gui` as the first
      raw piece replace the cursor whatever it was and skip classification;
      the resolution goes on at the moment the alias's waits returned. */
  lemma CursorAliasesReplaceCursor(h: Host, path: string, t: Timeline, c1: Option<Node>, c2: Option<Node>, raw: string)
    requires IsCursorAlias(Trim(raw))
    ensures Step(h, path, t, c1, 1, raw) == Step(h, path, t, c2, 1, raw) == AliasTarget(h, Trim(raw), t)
    ensures Step(h, path, t, c1, 1, raw).Go? ==> Resumes(t, Step(h, path, t, c1, 1, raw).time)
  {
    AliasTargets(h, Trim(raw), t);
  }

  /** `Server\X`: `X` and everything after it are resolved under the
      server's `TS` folder, from the moment it was found, never by a search
      under the starting parent. */
  lemma ServerAliasThenLookups(h: Host, t: Timeline, path: string, parent: Option<Node>, timeout: real,
                               sss: Node, ts: Node, t': Timeline)
    requires Trim(Split(path, Separator)[0]) == "Server"
    requires h.service("ServerScriptService") == Some(sss) && AwaitEvent(h, ChildNamed(sss, "TS"), t) == Found(ts, t')
    ensures Resolve(h, t, path, parent, timeout) ==
            RunLookups(h, path, t', Some(ts), Split(path, Separator)[1..])
  {
    var pieces := Split(path, Separator);
    assert Step(h, path, t, Some(Start(h, parent)), 1, pieces[0]) == Go(Some(ts), t');
    LaterPiecesAreNeverAliases(h, path, t', Some(ts), pieces[1..], 2);
  }

  /** The priority of the sigils: `*@` before `@` before "the cursor is the
      DataModel" before `*` before a plain name. At the DataModel the text
      goes to `GetService` verbatim, a leading `*` included. */
  lemma ClassificationOrder(h: Host, path: string, t: Timeline, cursor: Option<Node>, fix: string)
    ensures HasPrefix(fix, "*@") && AwaitUnique(h, fix[2..], t.now, t).Found? ==>
              Lookup(h, path, t, cursor, fix) ==
              Go(Some(AwaitUnique(h, fix[2..], t.now, t).node), AwaitUnique(h, fix[2..], t.now, t).time)
    ensures !HasPrefix(fix, "*@") && HasPrefix(fix, "@") ==>
              Lookup(h, path, t, cursor, fix) == Go(FirstNamed(h, t.tagged, fix[1..]), t)
    ensures !HasPrefix(fix, "*@") && !HasPrefix(fix, "@") && cursor == Some(h.dataModel) ==>
              Lookup(h, path, t, cursor, fix) ==
              (if h.service(fix).Some? then Go(h.service(fix), t) else Halt(Threw))
    ensures !HasPrefix(fix, "*@") && cursor.Some? && cursor != Some(h.dataModel) && HasPrefix(fix, "*") ==>
              Lookup(h, path, t, cursor, fix) == Delivered(AwaitEvent(h, ChildNamed(cursor.value, fix[1..]), t))
    ensures !HasPrefix(fix, "*") && !HasPrefix(fix, "@") && cursor.Some? && cursor != Some(h.dataModel) ==>
              Lookup(h, path, t, cursor, fix) == Go(FindFirstChild(h, t.children, cursor.value, fix), t)
  {
  }

  /** `@name` and `*@name` never read the cursor; `@name` takes the first
      "UniqueName"-tagged node of that name without waiting, so it can bring
      an absent cursor back. */
  lemma UniqueLookupsIgnoreCursor(h: Host, path: string, t: Timeline, c1: Option<Node>, c2: Option<Node>, fix: string)
    requires HasPrefix(fix, "@") || HasPrefix(fix, "*@")
    ensures Lookup(h, path, t, c1, fix) == Lookup(h, path, t, c2, fix)
    ensures HasPrefix(fix, "@") ==> Lookup(h, path, t, None, fix) == Go(FirstNamed(h, t.tagged, fix[1..]), t)
  {
    SigilPrefixes(fix);
  }

  /** A plain or `*` piece under an absent cursor stays absent, and waits for nothing. */
  lemma AbsentCursorStaysAbsent(h: Host, path: string, t: Timeline, fix: string)
    requires !HasPrefix(fix, "@") && !HasPrefix(fix, "*@")
    ensures Lookup(h, path, t, None, fix) == Go(None, t)
  {
  }

  /** Once the cursor is absent, a rest without unique lookups ends absent:
      every piece is still classified, none aborts. */
  lemma {:induction false} AbsentCursorPropagates(h: Host, path: string, t: Timeline, pieces: seq<string>)
    requires forall j :: 0 <= j < |pieces| ==> !HasPrefix(Trim(pieces[j]), "@") && !HasPrefix(Trim(pieces[j]), "*@")
    ensures RunLookups(h, path, t, None, pieces) == Returned(None)
  {
    if pieces != [] {
      assert forall j :: 0 <= j < |pieces[1..]| ==> pieces[1..][j] == pieces[j + 1];
      AbsentCursorPropagates(h, path, t, pieces[1..]);
    }
  }

  /** A tick at which the `*@name` loop leaves: the clock has reached the
      limit, or a matching tagged node is there. */
  predicate Due(h: Host, name: string, start: real, tk: Tick) {
    tk.at - start >= WaitLimit || FirstNamed(h, tk.tagged, name).Some?
  }

  /** The `*@name` loop ends at the first due tick to come: it never looks
      before its first yield, it compares against the literal 5, on a tie it
      gives up before looking, and it resumes after that tick. With no due
      tick it does not end within the modelled ticks. */
  lemma {:induction false} AwaitUniqueStopsAtFirstDueTick(h: Host, name: string, start: real, t: Timeline)
    ensures AwaitUnique(h, name, start, t) == OutOfTicks <==>
              forall k :: 0 <= k < |t.ahead| ==> !Due(h, name, start, t.ahead[k])
    ensures forall k :: 0 <= k < |t.ahead| && Due(h, name, start, t.ahead[k]) &&
                        (forall j :: 0 <= j < k ==> !Due(h, name, start, t.ahead[j])) ==>
              AwaitUnique(h, name, start, t) ==
              (if t.ahead[k].at - start >= WaitLimit then GaveUp
               else Found(FirstNamed(h, t.ahead[k].tagged, name).value, After(t, k + 1)))
    decreases |t.ahead|
  {
    if t.ahead != [] {
      var t' := Advance(t);
      AwaitUniqueStopsAtFirstDueTick(h, name, start, t');
      assert forall j :: 0 <= j < |t'.ahead| ==> t'.ahead[j] == t.ahead[j + 1];
      if !Due(h, name, start, t.ahead[0]) {
        forall k | 0 < k < |t.ahead| && Due(h, name, start, t.ahead[k]) &&
                   (forall j :: 0 <= j < k ==> !Due(h, name, start, t.ahead[j]))
          ensures AwaitUnique(h, name, start, t) ==
                  (if t.ahead[k].at - start >= WaitLimit then GaveUp
                   else Found(FirstNamed(h, t.ahead[k].tagged, name).value, After(t, k + 1)))
        {
          assert t'.ahead[k - 1] == t.ahead[k];
          AfterAdvance(t, k);
          assert forall j :: 0 <= j < k - 1 ==> !Due(h, name, start, t'.ahead[j]);
        }
      }
    }
  }

  /** The event is observed at none of the first `n` moments of `t`, now included. */
  predicate UnseenUntil(h: Host, e: Event, t: Timeline, n: nat)
    requires n <= |t.ahead| + 1
  {
    forall k :: 0 <= k < n ==> Observed(h, After(t, k), e).None?
  }

  /** Not seen now and not seen in the next `n` moments is not seen in the first `n + 1`. */
  lemma UnseenShift(h: Host, e: Event, t: Timeline, n: nat)
    requires t.ahead != [] && n <= |t.ahead|
    ensures (Observed(h, t, e).None? && UnseenUntil(h, e, Advance(t), n)) <==> UnseenUntil(h, e, t, n + 1)
  {
    var t' := Advance(t);
    assert After(t, 0) == t;
    forall k | 0 <= k < n ensures After(t', k) == After(t, k + 1) {
      AfterAdvance(t, k);
    }
    if UnseenUntil(h, e, t, n + 1) {
      forall k | 0 <= k < n ensures Observed(h, After(t', k), e).None? {
        assert Observed(h, After(t, k + 1), e).None?;
      }
    }
    if Observed(h, t, e).None? && UnseenUntil(h, e, t', n) {
      forall k | 0 <= k < n + 1 ensures Observed(h, After(t, k), e).None? {
        if k > 0 {
          assert Observed(h, After(t', k - 1), e).None?;
        }
      }
    }
  }

  /** A blocking host call does not end within the modelled ticks exactly
      when its event is observed at no moment, now included; it never gives up. */
  lemma {:induction false} AwaitOutOfTicks(h: Host, e: Event, t: Timeline)
    ensures AwaitEvent(h, e, t) == OutOfTicks <==> UnseenUntil(h, e, t, |t.ahead| + 1)
    ensures !AwaitEvent(h, e, t).GaveUp?
    decreases |t.ahead|
  {
    assert After(t, 0) == t;
    if Observed(h, t, e).None? && t.ahead != [] {
      AwaitOutOfTicks(h, e, Advance(t));
      UnseenShift(h, e, t, |t.ahead|);
    }
  }

  /** A blocking host call ends at the first moment, now included, at which
      its event is observed, and delivers what is observed then: it consumes
      no tick when the event is already there. */
  lemma {:induction false} AwaitStopsAtFirstSighting(h: Host, e: Event, t: Timeline, k: nat)
    requires k <= |t.ahead| && Observed(h, After(t, k), e).Some? && UnseenUntil(h, e, t, k)
    ensures AwaitEvent(h, e, t) == Found(Observed(h, After(t, k), e).value, After(t, k))
    decreases |t.ahead|
  {
    assert After(t, 0) == t;
    if k > 0 {
      UnseenShift(h, e, t, k - 1);
      AfterAdvance(t, k - 1);
      AwaitStopsAtFirstSighting(h, e, Advance(t), k - 1);
    }
  }

  /** What a blocking host call delivers is what is observed at the moment
      it returns, a later moment of the same timeline. */
  lemma {:induction false} AwaitSeesEvent(h: Host, e: Event, t: Timeline)
    ensures AwaitEvent(h, e, t).Found? ==>
              Resumes(t, AwaitEvent(h, e, t).time) &&
              Observed(h, AwaitEvent(h, e, t).time, e) == Some(AwaitEvent(h, e, t).node)
    decreases |t.ahead|
  {
    if Observed(h, t, e).Some? {
      assert t == After(t, 0);
    } else if t.ahead != [] {
      var t' := Advance(t);
      AwaitSeesEvent(h, e, t');
      if AwaitEvent(h, e, t').Found? {
        var k :| 0 <= k <= |t'.ahead| && AwaitEvent(h, e, t').time == After(t', k);
        AfterAdvance(t, k);
      }
    }
  }

  /** `parent.WaitForChild(name)` delivers a child of `parent` named `name`,
      one present at the moment the call returns. */
  lemma WaitForChildIsNamedChild(h: Host, parent: Node, name: string, t: Timeline)
    ensures AwaitEvent(h, ChildNamed(parent, name), t).Found? ==>
              AwaitEvent(h, ChildNamed(parent, name), t).node in AwaitEvent(h, ChildNamed(parent, name), t).time.children(parent) &&
              h.nameOf(AwaitEvent(h, ChildNamed(parent, name), t).node) == name &&
              Resumes(t, AwaitEvent(h, ChildNamed(parent, name), t).time)
  {
    var w := AwaitEvent(h, ChildNamed(parent, name), t);
    AwaitSeesEvent(h, ChildNamed(parent, name), t);
    if w.Found? {
      FirstNamedIsNamedMember(h, w.time.children(parent), name);
    }
  }

  /** What each cursor alias stands for. `LocalPlayer` is read without
      waiting; `Server`, `Client` and `Gui` wait for a child of that name
      under `ServerScriptService`, the player's `PlayerScripts` folder and the
      player; `Character` returns the spawned character at once and otherwise
      waits for it. Indexing an absent `LocalPlayer` or `GetService` refusing
      the name throws. */
  lemma AliasTargets(h: Host, fix: string, t: Timeline)
    requires IsCursorAlias(fix)
    ensures AliasTarget(h, fix, t).Go? ==> Resumes(t, AliasTarget(h, fix, t).time)
    ensures AliasTarget(h, fix, t).Halt? ==>
              AliasTarget(h, fix, t).outcome == Threw || AliasTarget(h, fix, t).outcome == Stuck
    ensures fix == "LocalPlayer" ==> AliasTarget(h, fix, t) == Go(h.localPlayer, t)
    ensures fix == "Server" && h.service("ServerScriptService").None? ==> AliasTarget(h, fix, t) == Halt(Threw)
    ensures fix == "Server" && AliasTarget(h, fix, t).Go? ==>
              AliasTarget(h, fix, t).cursor.Some? && h.nameOf(AliasTarget(h, fix, t).cursor.value) == "TS" &&
              AliasTarget(h, fix, t).cursor.value in
                AliasTarget(h, fix, t).time.children(h.service("ServerScriptService").value)
    ensures fix != "Server" && fix != "LocalPlayer" && h.localPlayer.None? ==> AliasTarget(h, fix, t) == Halt(Threw)
    ensures fix == "Client" && AliasTarget(h, fix, t).Go? ==>
              AliasTarget(h, fix, t).cursor.Some? && h.nameOf(AliasTarget(h, fix, t).cursor.value) == "TS" &&
              exists tm: Timeline, s: Node ::
                Resumes(t, tm) && Resumes(tm, AliasTarget(h, fix, t).time) &&
                s in tm.children(h.localPlayer.value) && h.nameOf(s) == "PlayerScripts" &&
                AliasTarget(h, fix, t).cursor.value in AliasTarget(h, fix, t).time.children(s)
    ensures fix == "Gui" && AliasTarget(h, fix, t).Go? ==>
              AliasTarget(h, fix, t).cursor.Some? && h.nameOf(AliasTarget(h, fix, t).cursor.value) == "PlayerGui" &&
              AliasTarget(h, fix, t).cursor.value in AliasTarget(h, fix, t).time.children(h.localPlayer.value)
    ensures fix == "Character" && AliasTarget(h, fix, t).Go? ==>
              AliasTarget(h, fix, t).cursor.Some? && AliasTarget(h, fix, t).cursor == AliasTarget(h, fix, t).time.character
    ensures fix == "Character" && h.localPlayer.Some? && t.character.Some? ==>
              AliasTarget(h, fix, t) == Go(t.character, t)
  {
    if fix == "Server" {
      if h.service("ServerScriptService").Some? {
        WaitForChildIsNamedChild(h, h.service("ServerScriptService").value, "TS", t);
      }
    } else if fix == "LocalPlayer" {
      assert t == After(t, 0);
    } else if h.localPlayer.Some? {
      var player := h.localPlayer.value;
      if fix == "Client" {
        var w := AwaitEvent(h, ChildNamed(player, "PlayerScripts"), t);
        WaitForChildIsNamedChild(h, player, "PlayerScripts", t);
        if w.Found? {
          WaitForChildIsNamedChild(h, w.node, "TS", w.time);
          var w2 := AwaitEvent(h, ChildNamed(w.node, "TS"), w.time);
          if w2.Found? {
            ResumesTransitive(t, w.time, w2.time);
          }
        }
      } else if fix == "Character" {
        AwaitSeesEvent(h, LocalCharacter, t);
      } else {
        WaitForChildIsNamedChild(h, player, "PlayerGui", t);
      }
    }
  }

  /** The `timeout` argument is never read: any value behaves like the default 5. */
  lemma TimeoutArgumentIsIgnored(h: Host, t: Timeline, path: string, parent: Option<Node>, timeout: real)
    ensures Resolve(h, t, path, parent, timeout) == Resolve(h, t, path, parent, WaitLimit)
  {
  }

  /** A `*@name` piece that gives up ends the whole resolution with the
      warning naming it and the path, whatever pieces remain. */
  lemma {:induction false} UniqueWaitTimeoutAborts(h: Host, path: string, t: Timeline, cursor: Option<Node>,
                                                   pieces: seq<string>, i: nat)
    requires pieces != [] && HasPrefix(Trim(pieces[0]), "*@")
    requires AwaitUnique(h, Trim(pieces[0])[2..], t.now, t) == GaveUp
    ensures Run(h, path, t, cursor, pieces, i) == TimedOut(Trim(pieces[0])[2..], path)
    ensures Warnings(Run(h, path, t, cursor, pieces, i)) ==
            ["Infinite yield possible on @" + Trim(pieces[0])[2..] + " trying to parse on " + path]
  {
    var fix := Trim(pieces[0]);
    UniqueWaitIsNoAlias(h, path, t, cursor, i, pieces[0]);
    assert Step(h, path, t, cursor, i, pieces[0]) == Halt(TimedOut(fix[2..], path));
    RunHalt(h, path, t, cursor, pieces, i, TimedOut(fix[2..], path));
  }

  /** A plain name that is not an alias, resolved under a parent that is not
      the DataModel, is that parent's first child of that name. */
  lemma SinglePlainPiece(h: Host, t: Timeline, name: string, parent: Option<Node>, timeout: real)
    requires name != "" && Trim(name) == name && Separator !in name
    requires !HasPrefix(name, "@") && !HasPrefix(name, "*") && !IsCursorAlias(name) && name != "Shared"
    requires Start(h, parent) != h.dataModel
    ensures Resolve(h, t, name, parent, timeout) == Returned(FindFirstChild(h, t.children, Start(h, parent), name))
  {
    SplitWithoutSeparator(name, Separator);
    SigilPrefixes(name);
    var start := Some(Start(h, parent));
    assert Step(h, name, t, start, 1, name) == Go(FindFirstChild(h, t.children, start.value, name), t);
    assert [name][0] == name && [name][1..] == [];
    assert Resolve(h, t, name, parent, timeout) == Run(h, name, t, start, [name], 1);
  }

  /** `NoSuchThing\AlsoMissing`: a first miss leaves the second piece
      searching under nothing, and the result is absent with no warning. */
  lemma MissThenMissIsAbsent(h: Host, t: Timeline, a: string, b: string, parent: Option<Node>, timeout: real)
    requires a != "" && Trim(a) == a && Separator !in a && Separator !in b
    requires !HasPrefix(a, "@") && !HasPrefix(a, "*") && !IsCursorAlias(a) && a != "Shared"
    requires !HasPrefix(Trim(b), "@") && !HasPrefix(Trim(b), "*@")
    requires Start(h, parent) != h.dataModel && FindFirstChild(h, t.children, Start(h, parent), a) == None
    ensures Resolve(h, t, a + [Separator] + b, parent, timeout) == Returned(None)
    ensures Warnings(Resolve(h, t, a + [Separator] + b, parent, timeout)) == []
  {
    var path := a + [Separator] + b;
    SplitAtFirstSeparator(a, b, Separator);
    SplitWithoutSeparator(b, Separator);
    assert Split(path, Separator) == [a, b];
    SigilPrefixes(a);
    assert Step(h, path, t, Some(Start(h, parent)), 1, a) == Go(None, t);
    assert [a, b][0] == a && [a, b][1..] == [b] && [b][0] == b;
    RunGo(h, path, t, Some(Start(h, parent)), [a, b], 1, None, t);
    LaterPiecesAreNeverAliases(h, path, t, None, [b], 2);
    AbsentCursorPropagates(h, path, t, [b]);
  }

  /** `*@Foo\Bar`: first the blocking unique lookup of `Foo`, then a plain
      search for `Bar` under the node it found. */
  lemma UniqueWaitThenChild(h: Host, t: Timeline, a: string, b: string, parent: Option<Node>, timeout: real,
                            n: Node, t': Timeline)
    requires HasPrefix(a, "*@") && Trim(a) == a && Separator !in a && Separator !in b
    requires b != "" && Trim(b) == b && !HasPrefix(b, "@") && !HasPrefix(b, "*")
    requires AwaitUnique(h, a[2..], t.now, t) == Found(n, t') && n != h.dataModel
    ensures Resolve(h, t, a + [Separator] + b, parent, timeout) == Returned(FindFirstChild(h, t'.children, n, b))
  {
    var path := a + [Separator] + b;
    SplitAtFirstSeparator(a, b, Separator);
    SplitWithoutSeparator(b, Separator);
    assert Split(path, Separator) == [a, b];
    var start := Some(Start(h, parent));
    UniqueWaitIsNoAlias(h, path, t, start, 1, a);
    assert Step(h, path, t, start, 1, a) == Go(Some(n), t');
    assert [a, b][0] == a && [a, b][1..] == [b];
    RunGo(h, path, t, start, [a, b], 1, Some(n), t');
    LaterPiecesAreNeverAliases(h, path, t', Some(n), [b], 2);
    SigilPrefixes(b);
    assert Lookup(h, path, t', Some(n), b) == Go(FindFirstChild(h, t'.children, n, b), t');
    assert [b][0] == b && [b][1..] == [];
    assert RunLookups(h, path, t', Some(n), [b]) == RunLookups(h, path, t', FindFirstChild(h, t'.children, n, b), []);
    assert Resolve(h, t, path, parent, timeout) == Run(h, path, t, start, [a, b], 1);
  }
}
