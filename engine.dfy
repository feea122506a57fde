/** The bookkeeping of the game engine around the bot processes: the
    engine log's level filter, each runner's debug-message quota, the
    per-turn time budget and grouping of runners, the status changes of
    eliminated and misbehaving runners, and the choice of a bot's language. */
module Engine {
  import opened Common

  // ---------------------------------------------------------------------
  // EngineLogger

  /** The message severities of `EngineLogger`, with their numeric levels
      DEBUG=1 ... ERROR=4 (a logger at level 0 filters nothing). */
  datatype Severity = Debug | Info | Warning | Error

  function SeverityLevel(s: Severity): int
  {
    match s
    case Debug => 1
    case Info => 2
    case Warning => 3
    case Error => 4
  }

  /** Whether a logger at `level` writes a message of severity `s`. */
  predicate Passes(level: int, s: Severity)
  {
    level <= SeverityLevel(s)
  }

  /** A message that passes also passes at every higher severity; level 0
      writes everything and a level above 4 nothing. */
  lemma PassesMonotone(level: int, s: Severity, t: Severity)
    ensures Passes(level, s) && SeverityLevel(s) <= SeverityLevel(t) ==> Passes(level, t)
    ensures level <= 1 ==> Passes(level, s)
    ensures level > 4 ==> !Passes(level, s)
  {
  }

  class EngineLogger {
    var buffer: seq<string>
    const level: int

    constructor(level: int)
      ensures this.level == level && buffer == []
    {
      this.level := level;
      buffer := [];
    }

    /** `debug`, `info`, `warning` and `error`: the message is written iff
        the logger's level is at most its severity. */
    method Log(s: Severity, msg: string)
      modifies this
      ensures Passes(level, s) ==> buffer == old(buffer) + [msg]
      ensures !Passes(level, s) ==> buffer == old(buffer)
    {
      if level <= SeverityLevel(s) {
        buffer := buffer + [msg];
      }
    }
  }

  // ---------------------------------------------------------------------
  // Runner debug quota

  datatype Status = Alive | Defeated | Crashed | Timeout | Invalid

  /** One entry of `debug_msgs`: `[turn, level, msgs]`. */
  datatype DebugEntry = DebugEntry(turn: int, level: int, msgs: seq<string>)

  const LimitMessage: string := "Exceeded debug messages limit."

  /** The error level of the entry that replaces a batch over the quota. */
  const LimitLevel: int := 2

  /** The quota fields of a runner. */
  datatype DebugState = DebugState(
    maxLength: int, maxAmount: int, reached: bool, size: int, amount: int, msgs: seq<DebugEntry>)

  /** `sum(map(len, msgs))`: zero exactly when every message is empty. */
  function TotalLength(msgs: seq<string>): (n: nat)
    ensures n == 0 <==> forall k :: 0 <= k < |msgs| ==> msgs[k] == []
  {
    if msgs == [] then 0 else TotalLength(msgs[..|msgs| - 1]) + |msgs[|msgs| - 1]|
  }

  /** `add_debug_msg` on the quota fields. */
  function AddDebug(d: DebugState, msgs: seq<string>, turn: int, level: int): DebugState
  {
    if msgs == [] || d.reached then d
    else
      var size := d.size + TotalLength(msgs);
      var amount := d.amount + |msgs|;
      if amount > d.maxAmount || size > d.maxLength then
        d.(reached := true, size := size, amount := amount,
           msgs := d.msgs + [DebugEntry(turn + 1, LimitLevel, [LimitMessage])])
      else
        d.(size := size, amount := amount, msgs := d.msgs + [DebugEntry(turn + 1, level, msgs)])
  }

  /** While the limit is not reached, both counters are within the limits. */
  ghost predicate WithinQuota(d: DebugState)
  {
    !d.reached ==> 0 <= d.amount <= d.maxAmount && 0 <= d.size <= d.maxLength
  }

  /** A batch is stored whole exactly when it keeps both counters within the
      limits; the first batch that does not is replaced by a single limit
      entry and sets the flag; an empty batch changes nothing. The quota
      holds afterwards, and entries are only ever appended. */
  lemma AddDebugSpec(d: DebugState, msgs: seq<string>, turn: int, level: int)
    requires WithinQuota(d)
    ensures var r := AddDebug(d, msgs, turn, level);
            && WithinQuota(r)
            && d.msgs <= r.msgs
            && (msgs == [] ==> r == d)
            && (!d.reached && msgs != [] ==>
                  var over := d.amount + |msgs| > d.maxAmount || d.size + TotalLength(msgs) > d.maxLength;
                  && r.reached == over
                  && r.msgs == d.msgs + [if over then DebugEntry(turn + 1, LimitLevel, [LimitMessage])
                                         else DebugEntry(turn + 1, level, msgs)])
  {
  }

  /** A batch of `add_debug_msg` calls. */
  datatype Batch = Batch(msgs: seq<string>, turn: int, level: int)

  function AddDebugAll(d: DebugState, bs: seq<Batch>): DebugState
  {
    if bs == [] then d
    else var last := bs[|bs| - 1]; AddDebug(AddDebugAll(d, bs[..|bs| - 1]), last.msgs, last.turn, last.level)
  }

  /** Once the limit is reached, no later call changes anything. */
  lemma {:induction false} ReachedStaysFrozen(d: DebugState, bs: seq<Batch>)
    requires d.reached
    ensures AddDebugAll(d, bs) == d
  {
    if bs != [] {
      ReachedStaysFrozen(d, bs[..|bs| - 1]);
    }
  }

  /** Over any run of calls the quota holds, entries are only appended, and
      a runner over its limit stays as it is. */
  lemma {:induction false} QuotaHoldsOverRun(d: DebugState, bs: seq<Batch>)
    requires WithinQuota(d)
    ensures WithinQuota(AddDebugAll(d, bs))
    ensures d.msgs <= AddDebugAll(d, bs).msgs
    ensures d.reached ==> AddDebugAll(d, bs) == d
  {
    if bs != [] {
      var init := AddDebugAll(d, bs[..|bs| - 1]);
      var last := bs[|bs| - 1];
      QuotaHoldsOverRun(d, bs[..|bs| - 1]);
      AddDebugSpec(init, last.msgs, last.turn, last.level);
    }
  }

  class Runner {
    const gameId: int
    var turn: int
    var status: Status
    const maxDebugLength: int
    const maxDebugAmount: int
    var debugMaxReached: bool
    var debugSize: int
    var debugAmount: int
    var debugMsgs: seq<DebugEntry>

    function DebugView(): DebugState
      reads this
    {
      DebugState(maxDebugLength, maxDebugAmount, debugMaxReached, debugSize, debugAmount, debugMsgs)
    }

    /** A new runner: turn 0, no messages, nothing counted. */
    constructor(gameId: int, maxDebugLength: int, maxDebugCount: int, status: Status)
      ensures this.gameId == gameId && turn == 0 && this.status == status
      ensures DebugView() == DebugState(maxDebugLength, maxDebugCount, false, 0, 0, [])
      ensures maxDebugLength >= 0 && maxDebugCount >= 0 ==> WithinQuota(DebugView())
    {
      this.gameId := gameId;
      turn := 0;
      this.status := status;
      this.maxDebugLength := maxDebugLength;
      maxDebugAmount := maxDebugCount;
      debugMaxReached := false;
      debugSize := 0;
      debugAmount := 0;
      debugMsgs := [];
    }

    /** `add_debug_msg`. */
    method AddDebugMsg(msgs: seq<string>, turn: int, level: int)
      modifies this
      ensures DebugView() == AddDebug(old(DebugView()), msgs, turn, level)
      ensures this.turn == old(this.turn) && status == old(status)
    {
      if msgs == [] {
        return;
      }
      if !debugMaxReached {
        var msgsSize := TotalLength(msgs);
        debugSize := debugSize + msgsSize;
        debugAmount := debugAmount + |msgs|;
        var exceededAmount := debugAmount > maxDebugAmount;
        var exceededLength := debugSize > maxDebugLength;
        if exceededAmount || exceededLength {
          debugMaxReached := true;
          debugMsgs := debugMsgs + [DebugEntry(turn + 1, LimitLevel, [LimitMessage])];
        } else {
          debugMsgs := debugMsgs + [DebugEntry(turn + 1, level, msgs)];
        }
      }
    }
  }

  // ---------------------------------------------------------------------
  // Turn budget and groups

  /** The time a turn allows, three times the announced one: `load_time` on
      the first turn, ten turn times on the next and one turn time after. */
  function TimeLimit(turnNum: int, initTurn: int, loadTime: int, turnTime: int): (t: int)
  {
    3 * (if turnNum == initTurn then loadTime
         else if turnNum == initTurn + 1 then turnTime * 10
         else turnTime)
  }

  /** The budget depends on the turn only through its distance to the first
      turn, and from the third turn on it is the same on every turn. */
  lemma TimeLimitSteady(turnNum: int, initTurn: int, loadTime: int, turnTime: int)
    ensures TimeLimit(turnNum, initTurn, loadTime, turnTime) % 3 == 0
    ensures turnNum >= initTurn + 2 ==>
              TimeLimit(turnNum, initTurn, loadTime, turnTime) == TimeLimit(initTurn + 2, initTurn, loadTime, turnTime)
    ensures TimeLimit(initTurn + 1, initTurn, loadTime, turnTime) == 10 * TimeLimit(initTurn + 2, initTurn, loadTime, turnTime)
  {
  }

  /** How many runners run at once. */
  function Simultaneous(isSerial: bool, runnerCount: nat): nat
  {
    if isSerial then 1 else runnerCount
  }

  function Flatten<T>(gs: seq<seq<T>>): seq<T>
  {
    if gs == [] then [] else Flatten(gs[..|gs| - 1]) + gs[|gs| - 1]
  }

  /** The slices `alive[g:g + step]` for `g` in `range(0, len(alive), step)`;
      a zero step makes `range` raise. */
  method Groups<T>(alive: seq<T>, step: nat) returns (r: Result<seq<seq<T>>>)
    ensures r.Err? <==> step == 0
    ensures r.Ok? ==> Flatten(r.value) == alive
    ensures r.Ok? ==> forall k :: 0 <= k < |r.value| ==> 1 <= |r.value[k]| <= step
    ensures r.Ok? ==> forall k :: 0 <= k < |r.value| - 1 ==> |r.value[k]| == step
  {
    if step == 0 {
      return Err("range() step argument must not be zero");
    }
    var groups: seq<seq<T>> := [];
    var g := 0;
    while g < |alive|
      invariant 0 <= g <= |alive|
      invariant Flatten(groups) == alive[..g]
      invariant forall k :: 0 <= k < |groups| ==> 1 <= |groups[k]| <= step
      invariant forall k :: 0 <= k < |groups| - 1 ==> |groups[k]| == step
      invariant g < |alive| && groups != [] ==> |groups[|groups| - 1]| == step
      decreases |alive| - g
    {
      var end := if g + step <= |alive| then g + step else |alive|;
      var slice := alive[g..end];
      assert alive[..end] == alive[..g] + slice;
      assert (groups + [slice])[..|groups|] == groups;
      groups := groups + [slice];
      g := end;
    }
    assert alive[..g] == alive;
    return Ok(groups);
  }

  // ---------------------------------------------------------------------
  // Status changes

  /** The status of a runner whose bot the game no longer counts as alive. */
  function EliminatedStatus(s: Status): (r: Status)
  {
    if s == Alive then Defeated else s
  }

  /** Only an alive runner becomes defeated; crashed, timed-out and invalid
      runners keep their status, and a second elimination changes nothing. */
  lemma EliminatedStatusSpec(s: Status)
    ensures EliminatedStatus(s) == Defeated <==> s == Alive || s == Defeated
    ensures s != Alive ==> EliminatedStatus(s) == s
    ensures EliminatedStatus(EliminatedStatus(s)) == EliminatedStatus(s)
  {
  }

  /** `handle_eliminated_runners`: each runner alive at the start of the turn
      whose bot the game no longer counts as alive is marked defeated, with
      the turn, if it was still alive. */
  method HandleEliminated(live: seq<Runner>, aliveIds: set<int>, turnNum: int)
    modifies set k | 0 <= k < |live| :: live[k]
    ensures forall r :: r in live && r.gameId !in aliveIds ==>
              r.status == EliminatedStatus(old(r.status))
              && r.turn == (if old(r.status) == Alive then turnNum else old(r.turn))
    ensures forall r :: r in live && r.gameId in aliveIds ==>
              r.status == old(r.status) && r.turn == old(r.turn)
    ensures forall r :: r in live ==> r.DebugView() == old(r.DebugView())
  {
    var i := 0;
    while i < |live|
      invariant 0 <= i <= |live|
      invariant forall r :: r in live[..i] && r.gameId !in aliveIds ==>
                  r.status == EliminatedStatus(old(r.status))
                  && r.turn == (if old(r.status) == Alive then turnNum else old(r.turn))
      invariant forall r :: r in live && (r !in live[..i] || r.gameId in aliveIds) ==>
                  r.status == old(r.status) && r.turn == old(r.turn)
      invariant forall r :: r in live ==> r.DebugView() == old(r.DebugView())
    {
      var runner := live[i];
      if runner.gameId !in aliveIds && runner.status == Alive {
        runner.status := Defeated;
        runner.turn := turnNum;
      }
      assert live[..i + 1] == live[..i] + [runner];
      i := i + 1;
    }
    assert live[..i] == live;
  }

  /** The verdict lists `do_moves` returns for one runner. */
  datatype Verdicts = Verdicts(valid: seq<string>, ignored: seq<string>, invalid: seq<string>)

  /** `process_orders` for one runner: ignored and invalid orders go to the
      debug messages at level 1; in strict mode an invalid order kills the
      player (`kill` is the call to the game's `kill_player`) and marks the
      runner invalid. */
  method ProcessRunnerOrders(runner: Runner, v: Verdicts, strict: bool, turnNum: int) returns (kill: bool)
    modifies runner
    ensures kill <==> strict && v.invalid != []
    ensures runner.status == (if kill then Invalid else old(runner.status))
    ensures runner.turn == (if kill then turnNum else old(runner.turn))
    ensures runner.DebugView() == AddDebug(AddDebug(old(runner.DebugView()), v.ignored, turnNum, 1), v.invalid, turnNum, 1)
  {
    kill := false;
    if v.ignored != [] {
      runner.AddDebugMsg(v.ignored, turnNum, 1);
    }
    if v.invalid != [] {
      if strict {
        kill := true;
        runner.status := Invalid;
        runner.turn := turnNum;
      }
      runner.AddDebugMsg(v.invalid, turnNum, 1);
    }
  }

  /** The game ids `process_orders` kills, in runner order. */
  function Killed(ids: seq<int>, vs: seq<Verdicts>, strict: bool): (r: seq<int>)
    requires |ids| == |vs|
    ensures forall x :: x in r ==> x in ids
    ensures !strict ==> r == []
  {
    if ids == [] then []
    else Killed(ids[..|ids| - 1], vs[..|vs| - 1], strict)
         + (if strict && vs[|vs| - 1].invalid != [] then [ids[|ids| - 1]] else [])
  }

  lemma KilledStep(ids: seq<int>, vs: seq<Verdicts>, strict: bool, i: nat)
    requires i < |ids| == |vs|
    ensures Killed(ids[..i + 1], vs[..i + 1], strict)
            == Killed(ids[..i], vs[..i], strict) + (if strict && vs[i].invalid != [] then [ids[i]] else [])
  {
    assert ids[..i + 1][..i] == ids[..i];
    assert vs[..i + 1][..i] == vs[..i];
  }

  function GameIds(runners: seq<Runner>): (ids: seq<int>)
    ensures |ids| == |runners| && forall k :: 0 <= k < |runners| ==> ids[k] == runners[k].gameId
  {
    seq(|runners|, k requires 0 <= k < |runners| => runners[k].gameId)
  }

  /** `process_orders` over all runners. */
  method ProcessOrders(runners: seq<Runner>, vs: seq<Verdicts>, strict: bool, turnNum: int)
    returns (killed: seq<int>)
    requires |runners| == |vs|
    requires forall i, j :: 0 <= i < j < |runners| ==> runners[i] != runners[j]
    modifies set k | 0 <= k < |runners| :: runners[k]
    ensures killed == Killed(GameIds(runners), vs, strict)
    ensures forall k :: 0 <= k < |runners| ==>
              runners[k].status == (if strict && vs[k].invalid != [] then Invalid else old(runners[k].status))
  {
    ghost var ids := GameIds(runners);
    killed := [];
    var i := 0;
    while i < |runners|
      invariant 0 <= i <= |runners|
      invariant killed == Killed(ids[..i], vs[..i], strict)
      invariant forall k :: 0 <= k < i ==>
                  runners[k].status == (if strict && vs[k].invalid != [] then Invalid else old(runners[k].status))
      invariant forall k :: i <= k < |runners| ==> runners[k].status == old(runners[k].status)
    {
      KilledStep(ids, vs, strict, i);
      var r := runners[i];
      var kill := ProcessRunnerOrders(r, vs[i], strict, turnNum);
      assert forall k :: 0 <= k < |runners| && k != i ==> runners[k] != r;
      if kill {
        killed := killed + [r.gameId];
      }
      i := i + 1;
    }
    assert ids[..i] == ids;
    assert vs[..i] == vs;
  }

  // ---------------------------------------------------------------------
  // Bot language

  datatype Language = Python | CSharp | Java

  predicate EndsWith(s: string, suffix: string)
  {
    |suffix| <= |s| && s[|s| - |suffix|..] == suffix
  }

  /** `recognize_language` for a single file, by its name's ending. */
  function LanguageOfFile(path: string): Option<Language>
  {
    if EndsWith(path, ".py") || EndsWith(path, ".pyc") then Some(Python)
    else if EndsWith(path, ".cs") then Some(CSharp)
    else if EndsWith(path, ".java") then Some(Java)
    else None
  }

  /** `recognize_language` for a directory, given how many `.java`, `.cs` and
      `.py` files it holds: the most frequent wins, ties prefer Java, then
      C#, then Python. */
  function LanguageOfDirectory(javaFiles: nat, cshFiles: nat, pythonFiles: nat): Option<Language>
  {
    var most := Max(Max(javaFiles, cshFiles), pythonFiles);
    if most == 0 then None
    else if javaFiles == most then Some(Java)
    else if cshFiles == most then Some(CSharp)
    else Some(Python)
  }

  /** The chosen language has the largest count, no language that wins a
      tie against it has as many files, and an empty directory has none. */
  lemma LanguageOfDirectorySpec(javaFiles: nat, cshFiles: nat, pythonFiles: nat)
    ensures var r := LanguageOfDirectory(javaFiles, cshFiles, pythonFiles);
            && (r.None? <==> javaFiles == 0 && cshFiles == 0 && pythonFiles == 0)
            && (r == Some(Java) <==> javaFiles > 0 && javaFiles >= cshFiles && javaFiles >= pythonFiles)
            && (r == Some(CSharp) <==> cshFiles > 0 && cshFiles > javaFiles && cshFiles >= pythonFiles)
            && (r == Some(Python) <==> pythonFiles > 0 && pythonFiles > javaFiles && pythonFiles > cshFiles)
  {
  }

  /** A `.pyc` file is Python although it does not end in `.py`; every
      recognised single file carries one of the four suffixes. */
  lemma LanguageOfFileSpec(path: string)
    ensures EndsWith(path + ".pyc", ".pyc") && LanguageOfFile(path + ".pyc") == Some(Python)
    ensures LanguageOfFile(path).Some? ==>
              EndsWith(path, ".py") || EndsWith(path, ".pyc") || EndsWith(path, ".cs") || EndsWith(path, ".java")
  {
    assert (path + ".pyc")[|path|..] == ".pyc";
  }

  /** `os.path.splitext(name)[1]` for a name without `/`: from the last dot,
      unless every character before that dot is a dot as well. */
  function Extension(name: string): (e: string)
    ensures e == [] || (e[0] == '.' && EndsWith(name, e))
  {
    match LastIndexOf(name, '.')
    case None => []
    case Some(i) =>
      if forall k :: 0 <= k < i ==> name[k] == '.' then [] else name[i..]
  }

  function LastIndexOf(s: string, c: char): (r: Option<nat>)
    ensures r.Some? ==> r.value < |s| && s[r.value] == c && c !in s[r.value + 1..]
    ensures r.None? ==> c !in s
  {
    if s == [] then None
    else if s[|s| - 1] == c then Some(|s| - 1)
    else match LastIndexOf(s[..|s| - 1], c)
      case None => None
      case Some(i) => assert s[i + 1..] == s[..|s| - 1][i + 1..] + [s[|s| - 1]]; Some(i)
  }

  /** The last occurrence is the one with none after it. */
  lemma {:induction false} LastIndexOfAt(s: string, c: char, i: nat)
    requires i < |s| && s[i] == c && c !in s[i + 1..]
    ensures LastIndexOf(s, c) == Some(i)
  {
    if i < |s| - 1 {
      assert s[|s| - 1] == s[i + 1..][|s| - 2 - i];
      assert s[..|s| - 1][i + 1..] == s[i + 1..|s| - 1];
      assert s[i + 1..|s| - 1] == s[i + 1..][..|s| - 2 - i];
      LastIndexOfAt(s[..|s| - 1], c, i);
    }
  }

  /** `os.path.join(root, name)`. */
  function Join(root: string, name: string): string
  {
    if name != [] && name[0] == '/' then name
    else if root == [] || root[|root| - 1] == '/' then root + name
    else root + "/" + name
  }

  /** The paths `select_files` keeps, in order. */
  function Selected(root: string, files: seq<string>, extension: string): seq<string>
  {
    if files == [] then []
    else Selected(root, files[..|files| - 1], extension)
         + (if Extension(files[|files| - 1]) == extension then [Join(root, files[|files| - 1])] else [])
  }

  /** `select_files`: the loop over the directory's names. */
  method SelectFiles(root: string, files: seq<string>, extension: string) returns (selected: seq<string>)
    ensures selected == Selected(root, files, extension)
  {
    selected := [];
    var i := 0;
    while i < |files|
      invariant 0 <= i <= |files|
      invariant selected == Selected(root, files[..i], extension)
    {
      assert files[..i + 1][..i] == files[..i];
      var fullPath := Join(root, files[i]);
      if Extension(files[i]) == extension {
        selected := selected + [fullPath];
      }
      i := i + 1;
    }
    assert files[..i] == files;
  }

  /** Exactly the names with the extension are kept, one path each, so
      never more paths than names. */
  lemma SelectedSpec(root: string, files: seq<string>, extension: string)
    ensures |Selected(root, files, extension)| <= |files|
    ensures forall k :: 0 <= k < |files| && Extension(files[k]) == extension ==>
              Join(root, files[k]) in Selected(root, files, extension)
    ensures forall p :: p in Selected(root, files, extension) ==> SelectedFrom(root, files, extension, p)
  {
    SelectedLength(root, files, extension);
    SelectedKeeps(root, files, extension);
    SelectedOnly(root, files, extension);
  }

  /** `p` is the path of one of the names with the extension. */
  ghost predicate SelectedFrom(root: string, files: seq<string>, extension: string, p: string)
  {
    exists k :: 0 <= k < |files| && Extension(files[k]) == extension && p == Join(root, files[k])
  }

  lemma {:induction false} SelectedLength(root: string, files: seq<string>, extension: string)
    ensures |Selected(root, files, extension)| <= |files|
  {
    if files != [] {
      SelectedLength(root, files[..|files| - 1], extension);
    }
  }

  lemma SelectedKeeps(root: string, files: seq<string>, extension: string)
    ensures forall k :: 0 <= k < |files| && Extension(files[k]) == extension ==>
              Join(root, files[k]) in Selected(root, files, extension)
  {
    forall k | 0 <= k < |files| && Extension(files[k]) == extension
      ensures Join(root, files[k]) in Selected(root, files, extension)
    {
      SelectedHas(root, files, extension, k);
    }
  }

  /** One name with the extension contributes its path. */
  lemma {:induction false} SelectedHas(root: string, files: seq<string>, extension: string, k: nat)
    requires k < |files| && Extension(files[k]) == extension
    ensures Join(root, files[k]) in Selected(root, files, extension)
    decreases |files|
  {
    var n := |files| - 1;
    var prev := Selected(root, files[..n], extension);
    var tail := if Extension(files[n]) == extension then [Join(root, files[n])] else [];
    assert Selected(root, files, extension) == prev + tail;
    if k < n {
      SelectedHas(root, files[..n], extension, k);
      assert files[..n][k] == files[k];
    } else {
      assert Join(root, files[k]) in tail;
    }
  }

  lemma {:induction false} SelectedOnly(root: string, files: seq<string>, extension: string)
    ensures forall p :: p in Selected(root, files, extension) ==> SelectedFrom(root, files, extension, p)
  {
    if files != [] {
      var n := |files| - 1;
      var init := files[..n];
      var last := files[n];
      var prev := Selected(root, init, extension);
      var tail := if Extension(last) == extension then [Join(root, last)] else [];
      assert Selected(root, files, extension) == prev + tail;
      SelectedOnly(root, init, extension);
      forall p | p in prev + tail
        ensures SelectedFrom(root, files, extension, p)
      {
        if p in prev {
          assert SelectedFrom(root, init, extension, p);
          var k :| 0 <= k < |init| && Extension(init[k]) == extension && p == Join(root, init[k]);
          assert files[k] == init[k];
        } else {
          assert files[n] == last;
        }
      }
    }
  }
}
