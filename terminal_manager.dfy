/**
 * The terminal manager: the embedded terminals the dashboard has attached,
 * keyed by session id, the bell notifier of each CLI session, the tab order
 * and which tab is shown. The first half states every operation on the
 * manager's contents as a value (`Tabs`); the class `Manager` at the end
 * holds the terminal and notifier objects and is proved against those
 * functions.
 */
module TerminalManager {
  import opened Wrappers
  import Terminal
  import Notifier
  import Text

  /** One attached terminal as the manager sees it. */
  datatype Slot = Slot(projectName: string, launch: Terminal.Launch, term: Terminal.TermState)

  /** One notifier: the directory it watches and its state. */
  datatype Watch = Watch(projectDir: string, log: Notifier.NotifierState)

  /** The manager's contents. */
  datatype Tabs = Tabs(
    slots: map<string, Slot>,
    watches: map<string, Watch>,
    activeId: Option<string>,
    order: seq<string>,
    checkCount: nat)

  /** One entry of the tab bar. */
  datatype TabEntry = TabEntry(sessionId: string, name: string, isActive: bool, hasBell: bool, bellBlink: bool)

  predicate NoDuplicates(s: seq<string>) {
    forall i, j :: 0 <= i < j < |s| ==> s[i] != s[j]
  }

  function Elems(s: seq<string>): set<string> {
    set x | x in s
  }

  /** What the manager keeps true: the tab order lists every attached
      terminal once, every notifier belongs to an attached terminal, the
      shown tab is attached, and every notifier's tool timer runs only while
      a tool call waits. */
  predicate Coherent(t: Tabs) {
    && NoDuplicates(t.order)
    && Elems(t.order) == t.slots.Keys
    && t.watches.Keys <= t.slots.Keys
    && (t.activeId.Some? ==> t.activeId.value in t.slots)
    && (forall id | id in t.watches :: Notifier.TimerInToolWait(t.watches[id].log.toolUseAt, t.watches[id].log.state))
  }

  /** `s` with every element of `d` removed, the rest in order (`Vec::retain`). */
  function Without(s: seq<string>, d: set<string>): (r: seq<string>)
    ensures Elems(r) == Elems(s) - d
    ensures |r| <= |s|
    decreases |s|
  {
    if |s| == 0 then []
    else
      assert Elems(s) == {s[0]} + Elems(s[1..]);
      if s[0] in d then Without(s[1..], d)
      else
        var w := Without(s[1..], d);
        assert Elems([s[0]] + w) == {s[0]} + Elems(w);
        [s[0]] + w
  }

  lemma {:induction false} WithoutNoDuplicates(s: seq<string>, d: set<string>)
    requires NoDuplicates(s)
    ensures NoDuplicates(Without(s, d))
    decreases |s|
  {
    if |s| > 0 {
      assert NoDuplicates(s[1..]) by {
        forall i, j | 0 <= i < j < |s[1..]| ensures s[1..][i] != s[1..][j] {
          assert s[1..][i] == s[i + 1] && s[1..][j] == s[j + 1];
        }
      }
      WithoutNoDuplicates(s[1..], d);
      if s[0] !in d {
        var w := Without(s[1..], d);
        assert s[0] !in Elems(s[1..]);
        assert s[0] !in Elems(w);
        forall i, j | 0 <= i < j < |[s[0]] + w| ensures ([s[0]] + w)[i] != ([s[0]] + w)[j] {
          if i == 0 {
            assert ([s[0]] + w)[j] == w[j - 1] && w[j - 1] in Elems(w);
          } else {
            assert ([s[0]] + w)[i] == w[i - 1] && ([s[0]] + w)[j] == w[j - 1];
          }
        }
      }
    }
  }

  /** Removing nothing that is present leaves the sequence as it was. */
  lemma {:induction false} WithoutAbsent(s: seq<string>, d: set<string>)
    requires Elems(s) !! d
    ensures Without(s, d) == s
    decreases |s|
  {
    if |s| > 0 {
      assert s[0] in Elems(s);
      assert Elems(s[1..]) <= Elems(s) by {
        forall x | x in Elems(s[1..]) ensures x in Elems(s) {
          var k :| 0 <= k < |s[1..]| && s[1..][k] == x;
          assert s[k + 1] == x;
        }
      }
      WithoutAbsent(s[1..], d);
      assert [s[0]] + s[1..] == s;
    }
  }

  /** The first index of `x` in `s`. */
  function Position(s: seq<string>, x: string): (r: Option<nat>)
    ensures r.Some? ==> r.value < |s| && s[r.value] == x
    ensures r.None? <==> x !in s
    decreases |s|
  {
    if |s| == 0 then None
    else if s[0] == x then Some(0)
    else match Position(s[1..], x)
      case None => None
      case Some(k) => Some(k + 1)
  }

  /** In a sequence without duplicates, an element's position is its index. */
  lemma PositionOfDistinct(s: seq<string>, i: nat)
    requires NoDuplicates(s) && i < |s|
    ensures Position(s, s[i]) == Some(i)
  {
    var p := Position(s, s[i]);
    assert p.Some? by { assert s[i] in s; }
    assert s[p.value] == s[i];
  }

  /** The bells of the shown terminal are acknowledged. */
  function ClearActive(t: Tabs): (r: Tabs)
    ensures r.watches == t.watches && r.activeId == t.activeId && r.order == t.order && r.checkCount == t.checkCount
    ensures r.slots.Keys == t.slots.Keys
  {
    if t.activeId.Some? && t.activeId.value in t.slots then
      var id := t.activeId.value;
      t.(slots := t.slots[id := t.slots[id].(term := Terminal.WithoutBell(t.slots[id].term))])
    else t
  }

  /** A new terminal stored under `id`, with its notifier if it has one, on the last tab. */
  function WithTab(t: Tabs, id: string, slot: Slot, watch: Option<Watch>): Tabs {
    t.(order := t.order + [id], slots := t.slots[id := slot],
       watches := if watch.None? then t.watches else t.watches[id := watch.value])
  }

  /** The slot of a session resumed on a new terminal. */
  function ResumedSlot(sessionId: string, projectName: string, cwd: string, rows: Terminal.u16, cols: Terminal.u16): Slot {
    Slot(projectName, Terminal.ResumeLaunch(sessionId, cwd), Terminal.Spawned(rows, cols))
  }

  /** The slot of a new session started in `cwd`. */
  function NewSlot(cwd: string, rows: Terminal.u16, cols: Terminal.u16): Slot {
    Slot(Terminal.NewProjectName(cwd), Terminal.NewLaunch(cwd), Terminal.Spawned(rows, cols))
  }

  /** The notifier started for a session in `cwd`. */
  function NewWatch(home: Option<string>, cwd: string, sessionId: string, logExists: bool, logSize: Option<nat>): Watch {
    Watch(Notifier.ProjectDir(home, cwd), Notifier.Initial(home, cwd, sessionId, logExists, logSize))
  }

  /** Attaching a known session: bells of the shown tab are acknowledged,
      a session not yet attached is resumed on a new terminal (unless
      spawning fails) with its own notifier, and it becomes the shown tab. */
  function AfterAttach(t: Tabs, sessionId: string, projectName: string, cwd: string, rows: Terminal.u16, cols: Terminal.u16,
                  spawnError: Option<string>, home: Option<string>, logExists: bool, logSize: Option<nat>): (Tabs, Result<(), string>)
  {
    var t1 := ClearActive(t);
    if sessionId in t1.slots then (SwitchedTo(t, sessionId), Ok(()))
    else if spawnError.Some? then (t1, Err(spawnError.value))
    else
      var slot := ResumedSlot(sessionId, projectName, cwd, rows, cols);
      (ClearActive(WithTab(t1, sessionId, slot, Some(NewWatch(home, cwd, sessionId, logExists, logSize))).(activeId := Some(sessionId))), Ok(()))
  }

  /** Starting a new session in `cwd` under the fresh id `newId`. */
  function AfterAttachNew(t: Tabs, newId: string, cwd: string, rows: Terminal.u16, cols: Terminal.u16,
                     spawnError: Option<string>, home: Option<string>, logExists: bool, logSize: Option<nat>): (Tabs, Result<string, string>)
  {
    var t1 := ClearActive(t);
    if spawnError.Some? then (t1, Err(spawnError.value))
    else
      (WithTab(t1, newId, NewSlot(cwd, rows, cols), Some(NewWatch(home, cwd, newId, logExists, logSize))).(activeId := Some(newId)), Ok(newId))
  }

  /** Attaching a remote session over ssh: like `Attach`, without a notifier. */
  function AfterAttachSsh(t: Tabs, implId: string, projectName: string, sshCommand: string, rows: Terminal.u16, cols: Terminal.u16,
                     spawnError: Option<string>): (Tabs, Result<(), string>)
  {
    var t1 := ClearActive(t);
    if implId in t1.slots then (SwitchedTo(t, implId), Ok(()))
    else if spawnError.Some? then (t1, Err(spawnError.value))
    else
      var slot := Slot(projectName, Terminal.SshLaunch(sshCommand), Terminal.Spawned(rows, cols));
      (ClearActive(WithTab(t1, implId, slot, None).(activeId := Some(implId))), Ok(()))
  }

  /** The shown terminal. */
  function ShownSlot(t: Tabs): (r: Option<Slot>)
    ensures r.Some? <==> t.activeId.Some? && t.activeId.value in t.slots
    ensures r.Some? ==> r.value == t.slots[t.activeId.value]
  {
    if t.activeId.Some? && t.activeId.value in t.slots then Some(t.slots[t.activeId.value]) else None
  }

  /** Keystrokes go to the shown terminal; with none shown nothing happens. */
  function AfterWriteToActive(t: Tabs, bytes: seq<Text.byte>, outcome: Terminal.WriteOutcome): (Tabs, Result<(), string>) {
    match ShownSlot(t)
    case None => (t, Ok(()))
    case Some(s) =>
      var id := t.activeId.value;
      (t.(slots := t.slots[id := s.(term := Terminal.AfterWrite(s.term, bytes, outcome))]), Terminal.WriteResult(outcome))
  }

  function AfterResizeActive(t: Tabs, rows: Terminal.u16, cols: Terminal.u16, ptyError: Option<string>): (Tabs, Result<(), string>) {
    match ShownSlot(t)
    case None => (t, Ok(()))
    case Some(s) =>
      var id := t.activeId.value;
      (t.(slots := t.slots[id := s.(term := Terminal.AfterResize(s.term, rows, cols, ptyError))]),
       if ptyError.Some? then Err(ptyError.value) else Ok(()))
  }

  /** The shown tab's index in the order, 0 when none is shown. */
  function CurrentIndex(t: Tabs): nat {
    if t.activeId.None? then 0 else Position(t.order, t.activeId.value).UnwrapOr(0)
  }

  /** The tab after `i`, wrapping to the first. */
  function NextIndex(i: nat, n: nat): nat
    requires i < n
  {
    if i + 1 == n then 0 else i + 1
  }

  /** The tab before `i`, wrapping to the last. */
  function PrevIndex(i: nat, n: nat): nat
    requires i < n
  {
    if i == 0 then n - 1 else i - 1
  }

  /** The first index of `x` at or after `k`, as an index of all of `s`. */
  function PositionFrom(s: seq<string>, x: string, k: nat): Option<nat>
    requires k <= |s|
    decreases |s| - k
  {
    if k == |s| then None else if s[k] == x then Some(k) else PositionFrom(s, x, k + 1)
  }

  lemma {:induction false} PositionFromStep(s: seq<string>, x: string, k: nat)
    requires k <= |s|
    ensures k == 0 ==> PositionFrom(s, x, 0) == Position(s, x)
    ensures k == |s| ==> PositionFrom(s, x, k) == None
    ensures k < |s| && s[k] == x ==> PositionFrom(s, x, k) == Some(k)
    ensures k < |s| && s[k] != x ==> PositionFrom(s, x, k) == PositionFrom(s, x, k + 1)
  {
    if k == 0 {
      PositionShift(s, x, 0);
    }
  }

  /** Searching from `k` finds what searching the suffix from there finds, shifted by `k`. */
  lemma {:induction false} PositionShift(s: seq<string>, x: string, k: nat)
    requires k <= |s|
    ensures PositionFrom(s, x, k) == match Position(s[k..], x) case None => None case Some(j) => Some(k + j)
    decreases |s| - k
  {
    if k < |s| && s[k] != x {
      PositionShift(s, x, k + 1);
      assert s[k..][1..] == s[k + 1..];
    }
  }

  lemma CurrentIndexBound(t: Tabs)
    requires |t.order| > 0
    ensures CurrentIndex(t) < |t.order|
  {
  }

  /** The wrap-around is the remainder `(i + 1) % n` that the tab bar computes. */
  lemma NextIndexIsRemainder(i: nat, n: nat)
    requires i < n
    ensures NextIndex(i, n) == (i + 1) % n
  {
  }

  /** Showing the tab `id`: the bells of the tab shown before and of `id` are acknowledged. */
  function SwitchedTo(t: Tabs, id: string): (r: Tabs)
    ensures r.order == t.order && r.watches == t.watches && r.slots.Keys == t.slots.Keys && r.activeId == Some(id)
  {
    ClearActive(ClearActive(t).(activeId := Some(id)))
  }

  function AfterCycleNext(t: Tabs): (r: Tabs)
    ensures r.order == t.order
  {
    if |t.order| == 0 then t
    else SwitchedTo(t, t.order[NextIndex(CurrentIndex(t), |t.order|)])
  }

  function AfterCyclePrev(t: Tabs): (r: Tabs)
    ensures r.order == t.order
  {
    if |t.order| == 0 then t
    else SwitchedTo(t, t.order[PrevIndex(CurrentIndex(t), |t.order|)])
  }

  /** Exited terminals other than the shown one, with their notifiers and tabs, are dropped. */
  function AfterCleanup(t: Tabs): Tabs {
    var dead := set id | id in t.slots && t.slots[id].term.exited && t.activeId != Some(id);
    t.(slots := t.slots - dead, watches := t.watches - dead, order := Without(t.order, dead))
  }

  /** The shown terminal is dropped with its notifier and tab, and no tab is shown. */
  function AfterRemoveActive(t: Tabs): Tabs {
    match t.activeId
    case None => t
    case Some(id) =>
      t.(slots := t.slots - {id}, watches := t.watches - {id}, order := Without(t.order, {id}), activeId := None)
  }

  /** The tab bar entries for `ids` (a suffix of the order); the shown tab
      never shows a bell. */
  function TabsFor(t: Tabs, ids: seq<string>): seq<TabEntry>
    decreases |ids|
  {
    if |ids| == 0 then []
    else
      var rest := TabsFor(t, ids[1..]);
      if ids[0] !in t.slots then rest
      else
        var s := t.slots[ids[0]];
        var isActive := t.activeId == Some(ids[0]);
        [TabEntry(ids[0], s.projectName, isActive, !isActive && s.term.bell, !isActive && s.term.bellBlink)] + rest
  }

  function TabBar(t: Tabs): seq<TabEntry> {
    TabsFor(t, t.order)
  }

  /** One notifier's check, with `input` what it finds on disk. */
  function CheckStep(t: Tabs, id: string, input: Notifier.CheckInput): (Tabs, bool)
    requires id in t.watches
  {
    var w := t.watches[id];
    var (log, fire) := Notifier.CheckSpec(w.projectDir, w.log, input);
    (t.(watches := t.watches[id := w.(log := log)]), fire)
  }

  /** The bell of terminal `id` is set, if it is attached. */
  function Ring(t: Tabs, id: string): Tabs {
    if id in t.slots then t.(slots := t.slots[id := t.slots[id].(term := Terminal.WithBell(t.slots[id].term))]) else t
  }

  /** One check of every notifier in `ids`, in that order, stopping at the
      first that asks for the bell: its terminal's bell is set and its id is
      the answer. `inputs` is what each notifier finds on disk. */
  function CheckFrom(t: Tabs, ids: seq<string>, inputs: map<string, Notifier.CheckInput>): (Tabs, Option<string>)
    decreases |ids|
  {
    if |ids| == 0 then (t, None)
    else if ids[0] !in t.watches || ids[0] !in inputs then CheckFrom(t, ids[1..], inputs)
    else
      var (t1, fire) := CheckStep(t, ids[0], inputs[ids[0]]);
      if fire then (Ring(t1, ids[0]), Some(ids[0])) else CheckFrom(t1, ids[1..], inputs)
  }

  /** The periodic check: the counter advances and the notifiers are
      checked in `iteration`, the map's iteration order. */
  function AfterCheckAndForward(t: Tabs, iteration: seq<string>, inputs: map<string, Notifier.CheckInput>): (Tabs, Option<string>) {
    CheckFrom(t.(checkCount := t.checkCount + 1), iteration, inputs)
  }

  /** The notifier of `id` asks for the bell when it is checked from its
      state in `t`. */
  predicate Fires(t: Tabs, id: string, inputs: map<string, Notifier.CheckInput>) {
    && id in t.watches && id in inputs
    && Notifier.CheckSpec(t.watches[id].projectDir, t.watches[id].log, inputs[id]).1
  }

  /** The position of the first id in `ids` whose notifier fires, when
      every notifier is checked from its state in `t`. */
  function FirstFiring(t: Tabs, ids: seq<string>, inputs: map<string, Notifier.CheckInput>): (r: Option<nat>)
    ensures r.Some? ==>
      && r.value < |ids| && Fires(t, ids[r.value], inputs)
      && forall j :: 0 <= j < r.value ==> !Fires(t, ids[j], inputs)
    ensures r.None? ==> forall j :: 0 <= j < |ids| ==> !Fires(t, ids[j], inputs)
    decreases |ids|
  {
    if |ids| == 0 then None
    else if Fires(t, ids[0], inputs) then Some(0)
    else
      var rest := FirstFiring(t, ids[1..], inputs);
      assert forall j :: 1 <= j < |ids| ==> ids[j] == ids[1..][j - 1];
      if rest.None? then None else Some(rest.value + 1)
  }

  // ----- Properties of the operations -----

  lemma AppendFresh(s: seq<string>, x: string)
    requires NoDuplicates(s) && x !in Elems(s)
    ensures NoDuplicates(s + [x]) && Elems(s + [x]) == Elems(s) + {x}
  {
    assert forall i :: 0 <= i < |s| ==> (s + [x])[i] == s[i];
    assert forall i :: 0 <= i < |s| ==> s[i] in Elems(s);
  }

  /** Acknowledging bells clears the two bell flags of the shown terminal
      and changes nothing else. */
  lemma ClearActiveEffect(t: Tabs)
    requires Coherent(t)
    ensures Coherent(ClearActive(t))
    ensures forall id | id in t.slots ::
      ClearActive(t).slots[id] == (if t.activeId == Some(id) then t.slots[id].(term := Terminal.WithoutBell(t.slots[id].term)) else t.slots[id])
  {
  }

  /** Attaching keeps the manager coherent. */
  lemma AttachKeepsCoherent(t: Tabs, sessionId: string, projectName: string, cwd: string, rows: Terminal.u16, cols: Terminal.u16,
                            spawnError: Option<string>, home: Option<string>, logExists: bool, logSize: Option<nat>)
    requires Coherent(t)
    ensures Coherent(AfterAttach(t, sessionId, projectName, cwd, rows, cols, spawnError, home, logExists, logSize).0)
  {
    var t1 := ClearActive(t);
    ClearActiveEffect(t);
    if sessionId in t1.slots {
      SwitchKeepsCoherent(t, sessionId);
    } else if spawnError.None? {
      var watch := Watch(Notifier.ProjectDir(home, cwd), Notifier.Initial(home, cwd, sessionId, logExists, logSize));
      AddTabKeepsCoherent(t1, sessionId, Slot(projectName, Terminal.ResumeLaunch(sessionId, cwd), Terminal.Spawned(rows, cols)), Some(watch));
    }
  }

  /** A new tab, shown or not, keeps the manager coherent. */
  lemma AddTabKeepsCoherent(t: Tabs, id: string, slot: Slot, watch: Option<Watch>)
    requires Coherent(t) && id !in t.slots
    requires watch.Some? ==> Notifier.TimerInToolWait(watch.value.log.toolUseAt, watch.value.log.state)
    ensures Coherent(WithTab(t, id, slot, watch))
    ensures Coherent(WithTab(t, id, slot, watch).(activeId := Some(id)))
    ensures Coherent(ClearActive(WithTab(t, id, slot, watch).(activeId := Some(id))))
  {
    AppendFresh(t.order, id);
    ClearActiveEffect(WithTab(t, id, slot, watch).(activeId := Some(id)));
  }

  /** Attaching succeeds unless a new terminal had to be spawned and that
      failed; on success the session is the shown tab with its bell
      acknowledged. A session already attached keeps its terminal and tab;
      a new one is resumed on a new terminal, gets a notifier and the last
      tab. A failure only acknowledges the bell of the tab shown before. */
  lemma AttachOutcome(t: Tabs, sessionId: string, projectName: string, cwd: string, rows: Terminal.u16, cols: Terminal.u16,
                      spawnError: Option<string>, home: Option<string>, logExists: bool, logSize: Option<nat>)
    requires Coherent(t)
    ensures var (u, r) := AfterAttach(t, sessionId, projectName, cwd, rows, cols, spawnError, home, logExists, logSize);
      && (r.Ok? <==> sessionId in t.slots || spawnError.None?)
      && (r.Err? ==> u == ClearActive(t) && r.error == spawnError.value)
      && (r.Ok? ==> u.activeId == Some(sessionId) && sessionId in u.slots && !u.slots[sessionId].term.bell && !u.slots[sessionId].term.bellBlink)
      && (sessionId in t.slots ==>
           (u.order == t.order && u.slots.Keys == t.slots.Keys && u.watches == t.watches
            && u.slots[sessionId].launch == t.slots[sessionId].launch))
      && (sessionId !in t.slots && r.Ok? ==>
           && u.order == t.order + [sessionId]
           && u.slots.Keys == t.slots.Keys + {sessionId}
           && u.slots[sessionId] == Slot(projectName, Terminal.ResumeLaunch(sessionId, cwd), Terminal.Spawned(rows, cols))
           && u.watches == t.watches[sessionId := Watch(Notifier.ProjectDir(home, cwd), Notifier.Initial(home, cwd, sessionId, logExists, logSize))])
  {
    if sessionId !in t.slots && spawnError.None? {
      var slot := ResumedSlot(sessionId, projectName, cwd, rows, cols);
      assert slot == Slot(projectName, Terminal.ResumeLaunch(sessionId, cwd), Terminal.Spawned(rows, cols));
    }
  }

  /** Attaching the same session again changes nothing. */
  lemma AttachIdempotent(t: Tabs, sessionId: string, projectName: string, cwd: string, rows: Terminal.u16, cols: Terminal.u16,
                         spawnError: Option<string>, home: Option<string>, logExists: bool, logSize: Option<nat>,
                         spawnError2: Option<string>, logExists2: bool, logSize2: Option<nat>)
    requires AfterAttach(t, sessionId, projectName, cwd, rows, cols, spawnError, home, logExists, logSize).1.Ok?
    ensures var u := AfterAttach(t, sessionId, projectName, cwd, rows, cols, spawnError, home, logExists, logSize).0;
      AfterAttach(u, sessionId, projectName, cwd, rows, cols, spawnError2, home, logExists2, logSize2) == (u, Ok(()))
  {
    var u := AfterAttach(t, sessionId, projectName, cwd, rows, cols, spawnError, home, logExists, logSize).0;
    assert u.slots[sessionId].term == Terminal.WithoutBell(u.slots[sessionId].term);
    assert u.slots[sessionId := u.slots[sessionId].(term := Terminal.WithoutBell(u.slots[sessionId].term))] == u.slots;
  }

  /** A new session under a fresh id: it gets the last tab, a notifier and
      becomes the shown tab; a failed spawn only acknowledges the bell of the
      tab shown before. */
  lemma AttachNewOutcome(t: Tabs, newId: string, cwd: string, rows: Terminal.u16, cols: Terminal.u16,
                         spawnError: Option<string>, home: Option<string>, logExists: bool, logSize: Option<nat>)
    requires Coherent(t) && newId !in t.slots
    ensures var (u, r) := AfterAttachNew(t, newId, cwd, rows, cols, spawnError, home, logExists, logSize);
      && (r.Ok? <==> spawnError.None?)
      && (r.Err? ==> u == ClearActive(t))
      && (r.Ok? ==>
           (r.value == newId && u.activeId == Some(newId) && u.order == t.order + [newId]
            && u.slots.Keys == t.slots.Keys + {newId}
            && u.slots[newId] == Slot(Terminal.NewProjectName(cwd), Terminal.NewLaunch(cwd), Terminal.Spawned(rows, cols))
            && u.watches == t.watches[newId := Watch(Notifier.ProjectDir(home, cwd), Notifier.Initial(home, cwd, newId, logExists, logSize))]))
  {
    if spawnError.None? {
      var t1 := ClearActive(t);
      var slot := Slot(Terminal.NewProjectName(cwd), Terminal.NewLaunch(cwd), Terminal.Spawned(rows, cols));
      var watch := Watch(Notifier.ProjectDir(home, cwd), Notifier.Initial(home, cwd, newId, logExists, logSize));
      var u := WithTab(t1, newId, slot, Some(watch)).(activeId := Some(newId));
      assert AfterAttachNew(t, newId, cwd, rows, cols, spawnError, home, logExists, logSize) == (u, Ok(newId));
      assert u.slots.Keys == t1.slots.Keys + {newId};
    }
  }

  /** Starting a new session under a fresh id keeps the manager coherent. */
  lemma AttachNewKeepsCoherent(t: Tabs, newId: string, cwd: string, rows: Terminal.u16, cols: Terminal.u16,
                               spawnError: Option<string>, home: Option<string>, logExists: bool, logSize: Option<nat>)
    requires Coherent(t) && newId !in t.slots
    ensures Coherent(AfterAttachNew(t, newId, cwd, rows, cols, spawnError, home, logExists, logSize).0)
  {
    ClearActiveEffect(t);
    if spawnError.None? {
      var watch := Watch(Notifier.ProjectDir(home, cwd), Notifier.Initial(home, cwd, newId, logExists, logSize));
      AddTabKeepsCoherent(ClearActive(t), newId, Slot(Terminal.NewProjectName(cwd), Terminal.NewLaunch(cwd), Terminal.Spawned(rows, cols)), Some(watch));
    }
  }

  /** Attaching over ssh keeps the manager coherent and never adds a notifier. */
  lemma AttachSshOutcome(t: Tabs, implId: string, projectName: string, sshCommand: string, rows: Terminal.u16, cols: Terminal.u16,
                         spawnError: Option<string>)
    requires Coherent(t)
    ensures var (u, r) := AfterAttachSsh(t, implId, projectName, sshCommand, rows, cols, spawnError);
      && Coherent(u)
      && u.watches == t.watches
      && (r.Ok? <==> implId in t.slots || spawnError.None?)
      && (r.Err? ==> u == ClearActive(t))
      && (r.Ok? ==> u.activeId == Some(implId) && !u.slots[implId].term.bell)
      && (implId !in t.slots && r.Ok? ==>
           (u.order == t.order + [implId]
            && u.slots[implId] == Slot(projectName, Terminal.SshLaunch(sshCommand), Terminal.Spawned(rows, cols))))
  {
    if implId !in t.slots && spawnError.None? {
      AppendFresh(t.order, implId);
    }
  }

  /** Keystrokes change the shown terminal and nothing else; with none shown nothing at all. */
  lemma WriteTouchesOnlyActive(t: Tabs, bytes: seq<Text.byte>, outcome: Terminal.WriteOutcome)
    requires Coherent(t)
    ensures var (u, r) := AfterWriteToActive(t, bytes, outcome);
      && Coherent(u) && u.order == t.order && u.watches == t.watches && u.activeId == t.activeId && u.slots.Keys == t.slots.Keys
      && (forall id | id in t.slots && t.activeId != Some(id) :: u.slots[id] == t.slots[id])
      && (t.activeId.None? ==> u == t && r.Ok?)
      && (t.activeId.Some? ==>
           (r == Terminal.WriteResult(outcome)
            && u.slots[t.activeId.value].term == Terminal.AfterWrite(t.slots[t.activeId.value].term, bytes, outcome)))
  {
  }

  /** A resize changes the shown terminal and nothing else, and fails exactly when the PTY refuses it. */
  lemma ResizeTouchesOnlyActive(t: Tabs, rows: Terminal.u16, cols: Terminal.u16, ptyError: Option<string>)
    requires Coherent(t)
    ensures var (u, r) := AfterResizeActive(t, rows, cols, ptyError);
      && Coherent(u) && u.order == t.order && u.watches == t.watches && u.activeId == t.activeId
      && (forall id | id in t.slots && t.activeId != Some(id) :: u.slots[id] == t.slots[id])
      && (r.Err? <==> t.activeId.Some? && ptyError.Some?)
  {
  }

  /** Stepping either way keeps the manager coherent, keeps the tabs and
      shows a tab whose bell is acknowledged. */
  lemma CycleKeepsCoherent(t: Tabs)
    requires Coherent(t)
    ensures Coherent(AfterCycleNext(t)) && AfterCycleNext(t).order == t.order && AfterCycleNext(t).watches == t.watches
    ensures Coherent(AfterCyclePrev(t)) && AfterCyclePrev(t).order == t.order && AfterCyclePrev(t).watches == t.watches
    ensures |t.order| > 0 ==> !AfterCycleNext(t).slots[AfterCycleNext(t).activeId.value].term.bell
    ensures |t.order| > 0 ==> !AfterCyclePrev(t).slots[AfterCyclePrev(t).activeId.value].term.bell
  {
    if |t.order| > 0 {
      var cur := CurrentIndex(t);
      SwitchKeepsCoherent(t, t.order[NextIndex(cur, |t.order|)]);
      SwitchKeepsCoherent(t, t.order[PrevIndex(cur, |t.order|)]);
    }
  }

  /** Showing an attached tab keeps the manager coherent and changes no tab. */
  lemma SwitchKeepsCoherent(t: Tabs, id: string)
    requires Coherent(t) && (id in t.slots || id in Elems(t.order))
    ensures Coherent(SwitchedTo(t, id))
    ensures SwitchedTo(t, id).order == t.order && SwitchedTo(t, id).watches == t.watches && SwitchedTo(t, id).activeId == Some(id)
    ensures SwitchedTo(t, id).slots.Keys == t.slots.Keys && !SwitchedTo(t, id).slots[id].term.bell
  {
    ClearActiveEffect(t);
    ClearActiveEffect(ClearActive(t).(activeId := Some(id)));
  }

  /** Stepping forward from the tab at `p` shows the tab after it. */
  lemma CycleNextFrom(t: Tabs, p: nat)
    requires NoDuplicates(t.order) && p < |t.order| && t.activeId == Some(t.order[p])
    ensures AfterCycleNext(t).order == t.order
    ensures AfterCycleNext(t).activeId == Some(t.order[NextIndex(p, |t.order|)])
  {
    PositionOfDistinct(t.order, p);
  }

  /** Stepping back from the tab at `p` shows the tab before it. */
  lemma CyclePrevFrom(t: Tabs, p: nat)
    requires NoDuplicates(t.order) && p < |t.order| && t.activeId == Some(t.order[p])
    ensures AfterCyclePrev(t).order == t.order
    ensures AfterCyclePrev(t).activeId == Some(t.order[PrevIndex(p, |t.order|)])
  {
    PositionOfDistinct(t.order, p);
  }

  /** With no tab shown, stepping forward shows the second tab (the first
      when there is only one), and stepping back shows the last; with no
      tabs nothing changes. */
  lemma CycleWithoutActive(t: Tabs)
    requires t.activeId.None?
    ensures |t.order| == 0 ==> AfterCycleNext(t) == t && AfterCyclePrev(t) == t
    ensures |t.order| > 0 ==> AfterCycleNext(t).activeId == Some(t.order[if |t.order| == 1 then 0 else 1])
    ensures |t.order| > 0 ==> AfterCyclePrev(t).activeId == Some(t.order[|t.order| - 1])
  {
  }

  /** Stepping forward and then back (or back and then forward) returns to
      the tab shown before. */
  lemma CycleRoundTrip(t: Tabs, p: nat)
    requires NoDuplicates(t.order) && p < |t.order| && t.activeId == Some(t.order[p])
    ensures AfterCyclePrev(AfterCycleNext(t)).activeId == t.activeId
    ensures AfterCycleNext(AfterCyclePrev(t)).activeId == t.activeId
  {
    var n := |t.order|;
    var u := AfterCycleNext(t);
    CycleNextFrom(t, p);
    CyclePrevFrom(u, NextIndex(p, n));
    var v := AfterCyclePrev(t);
    CyclePrevFrom(t, p);
    CycleNextFrom(v, PrevIndex(p, n));
  }

  /** `(p + k) % n` for `p < n` and `k <= n`. */
  function Shift(p: nat, k: nat, n: nat): nat {
    if p + k < n then p + k else p + k - n
  }

  lemma ShiftNext(p: nat, j: nat, n: nat)
    requires p < n && j < n && Shift(p, j, n) < n
    ensures NextIndex(Shift(p, j, n), n) == Shift(p, j + 1, n) < n
  {
  }

  /** The tabs after `k` steps forward. */
  function CycleNextN(t: Tabs, k: nat): (r: Tabs)
    ensures r.order == t.order
    decreases k
  {
    if k == 0 then t else AfterCycleNext(CycleNextN(t, k - 1))
  }

  /** `k` steps forward from the tab at `p`, for `k` up to the number of tabs. */
  lemma CycleNextNSteps(t: Tabs, p: nat, k: nat)
    requires NoDuplicates(t.order) && p < |t.order| && t.activeId == Some(t.order[p]) && k <= |t.order|
    ensures Shift(p, k, |t.order|) < |t.order| && CycleNextN(t, k).activeId == Some(t.order[Shift(p, k, |t.order|)])
  {
    var j := 0;
    while j < k
      invariant j <= k
      invariant Shift(p, j, |t.order|) < |t.order| && CycleNextN(t, j).activeId == Some(t.order[Shift(p, j, |t.order|)])
    {
      CycleStepAfter(t, CycleNextN(t, j), p, j);
      assert CycleNextN(t, j + 1) == AfterCycleNext(CycleNextN(t, j));
      j := j + 1;
    }
  }

  /** One more step forward from the tabs `r` reached after `j` steps. */
  lemma CycleStepAfter(t: Tabs, r: Tabs, p: nat, j: nat)
    requires NoDuplicates(t.order) && p < |t.order| && j < |t.order| && r.order == t.order
    requires Shift(p, j, |t.order|) < |t.order| && r.activeId == Some(t.order[Shift(p, j, |t.order|)])
    ensures Shift(p, j + 1, |t.order|) < |t.order| && AfterCycleNext(r).activeId == Some(t.order[Shift(p, j + 1, |t.order|)])
  {
    CycleNextFrom(r, Shift(p, j, |t.order|));
    ShiftNext(p, j, |t.order|);
  }

  /** The tab at `q` is reached within fewer steps than there are tabs. */
  lemma ReachesTab(t: Tabs, p: nat, q: nat)
    requires NoDuplicates(t.order) && p < |t.order| && t.activeId == Some(t.order[p]) && q < |t.order|
    ensures exists k :: 0 <= k < |t.order| && CycleNextN(t, k).activeId == Some(t.order[q])
  {
    var n := |t.order|;
    var k: nat;
    if q >= p {
      k := q - p;
    } else {
      k := q + n - p;
    }
    assert Shift(p, k, n) == q;
    CycleNextNSteps(t, p, k);
    assert 0 <= k < n && CycleNextN(t, k).activeId == Some(t.order[q]);
  }

  /** Stepping forward once per tab visits every tab and comes back to the
      tab shown at the start. */
  lemma CycleVisitsEveryTab(t: Tabs, p: nat, q: nat)
    requires NoDuplicates(t.order) && p < |t.order| && t.activeId == Some(t.order[p]) && q < |t.order|
    ensures CycleNextN(t, |t.order|).activeId == t.activeId
    ensures exists k :: 0 <= k < |t.order| && CycleNextN(t, k).activeId == Some(t.order[q])
  {
    var n := |t.order|;
    CycleNextNSteps(t, p, n);
    assert Shift(p, n, n) == p;
    ReachesTab(t, p, q);
  }

  /** Cleanup keeps the manager coherent and drops exactly the exited
      terminals that are not shown, leaving the others untouched. */
  lemma CleanupOutcome(t: Tabs)
    requires Coherent(t)
    ensures var u := AfterCleanup(t);
      && Coherent(u)
      && u.activeId == t.activeId
      && (forall id | id in t.slots :: (id in u.slots <==> !t.slots[id].term.exited || t.activeId == Some(id)))
      && (forall id | id in u.slots :: u.slots[id] == t.slots[id])
      && (forall id | id in u.watches :: u.watches[id] == t.watches[id])
  {
    var dead := set id | id in t.slots && t.slots[id].term.exited && t.activeId != Some(id);
    WithoutNoDuplicates(t.order, dead);
  }

  /** A second cleanup finds nothing to drop. */
  lemma CleanupIdempotent(t: Tabs)
    ensures AfterCleanup(AfterCleanup(t)) == AfterCleanup(t)
  {
    var u := AfterCleanup(t);
    var dead := set id | id in u.slots && u.slots[id].term.exited && u.activeId != Some(id);
    assert dead == {};
    WithoutAbsent(u.order, dead);
    assert u.slots - dead == u.slots && u.watches - dead == u.watches;
  }

  /** Removing the shown tab drops exactly it, and then no tab is shown. */
  lemma RemoveActiveOutcome(t: Tabs)
    requires Coherent(t)
    ensures var u := AfterRemoveActive(t);
      && Coherent(u) && u.activeId.None?
      && (t.activeId.None? ==> u == t)
      && (t.activeId.Some? ==>
           (u.slots == t.slots - {t.activeId.value} && u.watches == t.watches - {t.activeId.value}
            && u.order == Without(t.order, {t.activeId.value}) && |u.order| == |t.order| - 1))
  {
    if t.activeId.Some? {
      var id := t.activeId.value;
      WithoutNoDuplicates(t.order, {id});
      var u := AfterRemoveActive(t);
      assert |Elems(u.order)| == |Elems(t.order)| - 1;
      DistinctCard(t.order);
      DistinctCard(u.order);
    }
  }

  lemma {:induction false} DistinctCard(s: seq<string>)
    requires NoDuplicates(s)
    ensures |Elems(s)| == |s|
    decreases |s|
  {
    if |s| > 0 {
      var init := s[..|s| - 1];
      assert NoDuplicates(init) by {
        forall i, j | 0 <= i < j < |init| ensures init[i] != init[j] {
          assert init[i] == s[i] && init[j] == s[j];
        }
      }
      DistinctCard(init);
      assert s == init + [s[|s| - 1]];
      assert s[|s| - 1] !in Elems(init);
      assert Elems(s) == Elems(init) + {s[|s| - 1]};
    }
  }

  /** The entries for ids that are all attached: one per id, in order. */
  lemma {:induction false} TabsForAttached(t: Tabs, ids: seq<string>)
    requires forall i :: 0 <= i < |ids| ==> ids[i] in t.slots
    ensures |TabsFor(t, ids)| == |ids|
    ensures forall i :: 0 <= i < |ids| ==> TabsFor(t, ids)[i] == TabEntry(ids[i], t.slots[ids[i]].projectName,
      t.activeId == Some(ids[i]), t.activeId != Some(ids[i]) && t.slots[ids[i]].term.bell,
      t.activeId != Some(ids[i]) && t.slots[ids[i]].term.bellBlink)
    decreases |ids|
  {
    if |ids| > 0 {
      TabsForAttached(t, ids[1..]);
      assert forall i :: 1 <= i < |ids| ==> ids[1..][i - 1] == ids[i];
    }
  }

  /** The tab bar has one entry per tab, in tab order, named after the
      project; exactly the shown tab is marked active, and only tabs not
      shown display a bell. */
  lemma TabInfoShape(t: Tabs)
    requires Coherent(t)
    ensures |TabBar(t)| == |t.order|
    ensures forall i :: 0 <= i < |t.order| ==>
      && TabBar(t)[i].sessionId == t.order[i]
      && TabBar(t)[i].name == t.slots[t.order[i]].projectName
      && (TabBar(t)[i].isActive <==> t.activeId == Some(t.order[i]))
      && (TabBar(t)[i].hasBell <==> !TabBar(t)[i].isActive && t.slots[t.order[i]].term.bell)
    ensures forall i, j :: 0 <= i < j < |t.order| ==> !(TabBar(t)[i].isActive && TabBar(t)[j].isActive)
  {
    assert forall i :: 0 <= i < |t.order| ==> t.order[i] in Elems(t.order);
    TabsForAttached(t, t.order);
  }

  /** One round of checks changes no tab, no key set and at most one bell:
      when a notifier asks for the bell, its id is the answer and only its
      terminal's bell is set. */
  lemma {:induction false} CheckFromOutcome(t: Tabs, ids: seq<string>, inputs: map<string, Notifier.CheckInput>)
    requires Coherent(t)
    ensures var (u, rung) := CheckFrom(t, ids, inputs);
      && Coherent(u)
      && u.order == t.order && u.activeId == t.activeId && u.checkCount == t.checkCount
      && u.watches.Keys == t.watches.Keys
      && (forall id | id in u.watches :: u.watches[id].projectDir == t.watches[id].projectDir)
      && (rung.None? ==> u.slots == t.slots)
      && (rung.Some? ==>
           (rung.value in ids && rung.value in t.watches
            && u.slots == t.slots[rung.value := t.slots[rung.value].(term := Terminal.WithBell(t.slots[rung.value].term))]))
    decreases |ids|
  {
    if |ids| > 0 {
      if ids[0] !in t.watches || ids[0] !in inputs {
        CheckFromOutcome(t, ids[1..], inputs);
        var rung := CheckFrom(t, ids, inputs).1;
        assert rung.Some? ==> rung.value in ids[1..];
      } else {
        var id := ids[0];
        var w := t.watches[id];
        Notifier.CheckKeepsTimerInToolWait(w.projectDir, w.log, inputs[id]);
        var (log, fire) := Notifier.CheckSpec(w.projectDir, w.log, inputs[id]);
        var t1 := t.(watches := t.watches[id := w.(log := log)]);
        assert Coherent(t1);
        if !fire {
          CheckFromOutcome(t1, ids[1..], inputs);
          var rung := CheckFrom(t, ids, inputs).1;
          assert rung.Some? ==> rung.value in ids[1..];
        }
      }
    }
  }

  /** Two states in which the same notifiers of `ids` fire agree on the first. */
  lemma {:induction false} FirstFiringFrame(t: Tabs, t1: Tabs, ids: seq<string>, inputs: map<string, Notifier.CheckInput>)
    requires forall j :: 0 <= j < |ids| ==> (Fires(t, ids[j], inputs) <==> Fires(t1, ids[j], inputs))
    ensures FirstFiring(t, ids, inputs) == FirstFiring(t1, ids, inputs)
    decreases |ids|
  {
    if |ids| > 0 {
      assert forall j :: 0 <= j < |ids[1..]| ==> ids[1..][j] == ids[j + 1];
      FirstFiringFrame(t, t1, ids[1..], inputs);
    }
  }

  /** In a round over distinct ids, the bell rings for the first notifier, in
      round order, whose check fires, and for none when no check fires. */
  lemma {:induction false} CheckFromRingsFirst(t: Tabs, ids: seq<string>, inputs: map<string, Notifier.CheckInput>)
    requires NoDuplicates(ids)
    ensures var f := FirstFiring(t, ids, inputs);
      CheckFrom(t, ids, inputs).1 == if f.Some? then Some(ids[f.value]) else None
    decreases |ids|
  {
    if |ids| > 0 {
      var tail := ids[1..];
      assert NoDuplicates(tail) by {
        forall i, j | 0 <= i < j < |tail| ensures tail[i] != tail[j] {
          assert tail[i] == ids[i + 1] && tail[j] == ids[j + 1];
        }
      }
      assert forall j :: 0 <= j < |tail| ==> tail[j] == ids[j + 1] && ids[j + 1] != ids[0];
      if ids[0] !in t.watches || ids[0] !in inputs {
        CheckFromRingsFirst(t, tail, inputs);
      } else {
        var id := ids[0];
        var (t1, fire) := CheckStep(t, id, inputs[id]);
        if !fire {
          CheckFromRingsFirst(t1, tail, inputs);
          forall j | 0 <= j < |tail| ensures Fires(t, tail[j], inputs) <==> Fires(t1, tail[j], inputs) {
            assert tail[j] != id;
          }
          FirstFiringFrame(t, t1, tail, inputs);
        }
      }
    }
  }

  /** The periodic check rings for the first notifier, in the map's
      iteration order, whose check fires. */
  lemma CheckAndForwardRingsFirst(t: Tabs, iteration: seq<string>, inputs: map<string, Notifier.CheckInput>)
    requires NoDuplicates(iteration)
    ensures var f := FirstFiring(t, iteration, inputs);
      AfterCheckAndForward(t, iteration, inputs).1 == if f.Some? then Some(iteration[f.value]) else None
  {
    var t0 := t.(checkCount := t.checkCount + 1);
    CheckFromRingsFirst(t0, iteration, inputs);
    FirstFiringFrame(t, t0, iteration, inputs);
  }

  /** One step of a round: the first id, when it has a notifier and an input. */
  lemma CheckFromStep(t: Tabs, ids: seq<string>, inputs: map<string, Notifier.CheckInput>)
    requires |ids| > 0 && ids[0] in t.watches && ids[0] in inputs
    ensures var (t1, fire) := CheckStep(t, ids[0], inputs[ids[0]]);
      CheckFrom(t, ids, inputs) == if fire then (Ring(t1, ids[0]), Some(ids[0])) else CheckFrom(t1, ids[1..], inputs)
  {
  }

  lemma CheckStepKeepsCoherent(t: Tabs, id: string, input: Notifier.CheckInput)
    requires Coherent(t) && id in t.watches
    ensures Coherent(CheckStep(t, id, input).0)
  {
    var w := t.watches[id];
    Notifier.CheckKeepsTimerInToolWait(w.projectDir, w.log, input);
  }

  lemma RingKeepsCoherent(t: Tabs, id: string)
    requires Coherent(t)
    ensures Coherent(Ring(t, id))
  {
  }

  /** The periodic check advances the counter and otherwise behaves as one round of checks. */
  lemma CheckAndForwardOutcome(t: Tabs, iteration: seq<string>, inputs: map<string, Notifier.CheckInput>)
    requires Coherent(t)
    ensures var (u, rung) := AfterCheckAndForward(t, iteration, inputs);
      && Coherent(u) && u.checkCount == t.checkCount + 1
      && u.order == t.order && u.activeId == t.activeId
      && (rung.None? ==> u.slots == t.slots)
      && (rung.Some? ==>
           (rung.value in iteration && rung.value in t.watches
            && u.slots == t.slots[rung.value := t.slots[rung.value].(term := Terminal.WithBell(t.slots[rung.value].term))]))
  {
    CheckFromOutcome(t.(checkCount := t.checkCount + 1), iteration, inputs);
  }

  /** A manager with no terminals is coherent. */
  lemma EmptyCoherent()
    ensures Coherent(Tabs(map[], map[], None, [], 0))
    ensures Stored(map[], map[])
  {
  }

  /** Removing one set and then another is removing both. */
  lemma {:induction false} WithoutTwice(s: seq<string>, a: set<string>, b: set<string>)
    ensures Without(Without(s, a), b) == Without(s, a + b)
    decreases |s|
  {
    if |s| > 0 {
      WithoutTwice(s[1..], a, b);
      if s[0] !in a {
        var w := Without(s[1..], a);
        assert ([s[0]] + w)[0] == s[0] && ([s[0]] + w)[1..] == w;
      }
    }
  }

  // ----- The manager object -----

  function SlotsOf(ts: map<string, Terminal.EmbeddedTerminal>): map<string, Slot>
    reads ts.Values
  {
    map id | id in ts :: Slot(ts[id].projectName, ts[id].launch, ts[id].State())
  }

  function WatchesOf(ns: map<string, Notifier.JsonlNotifier>): map<string, Watch>
    reads ns.Values
  {
    map id | id in ns :: Watch(ns[id].projectDir, ns[id].Snapshot())
  }

  lemma SlotsOfInsert(ts: map<string, Terminal.EmbeddedTerminal>, id: string, term: Terminal.EmbeddedTerminal)
    ensures SlotsOf(ts[id := term]) == SlotsOf(ts)[id := Slot(term.projectName, term.launch, term.State())]
  {
  }

  lemma WatchesOfInsert(ns: map<string, Notifier.JsonlNotifier>, id: string, n: Notifier.JsonlNotifier)
    ensures WatchesOf(ns[id := n]) == WatchesOf(ns)[id := Watch(n.projectDir, n.Snapshot())]
  {
  }

  lemma StoredInsert(ts: map<string, Terminal.EmbeddedTerminal>, ns: map<string, Notifier.JsonlNotifier>,
                     id: string, term: Terminal.EmbeddedTerminal, notifier: Option<Notifier.JsonlNotifier>)
    requires Stored(ts, ns) && term.sessionId == id
    requires notifier.Some? ==> notifier.value !in ns.Values
    ensures Stored(ts[id := term], if notifier.None? then ns else ns[id := notifier.value])
  {
  }

  lemma SlotsOfRemove(ts: map<string, Terminal.EmbeddedTerminal>, d: set<string>)
    ensures SlotsOf(ts - d) == SlotsOf(ts) - d
  {
  }

  lemma WatchesOfRemove(ns: map<string, Notifier.JsonlNotifier>, d: set<string>)
    ensures WatchesOf(ns - d) == WatchesOf(ns) - d
  {
  }

  lemma MinusStep<V>(m: map<string, V>, removed: set<string>, id: string)
    ensures (m - removed) - {id} == m - (removed + {id})
  {
  }

  lemma StoredRemove(ts: map<string, Terminal.EmbeddedTerminal>, ns: map<string, Notifier.JsonlNotifier>, d: set<string>)
    requires Stored(ts, ns)
    ensures Stored(ts - d, ns - d)
  {
  }

  /** Every terminal is stored under its own session id, so no terminal is
      stored twice, and no notifier is stored twice. */
  predicate Stored(ts: map<string, Terminal.EmbeddedTerminal>, ns: map<string, Notifier.JsonlNotifier>) {
    && (forall id | id in ts :: ts[id].sessionId == id)
    && (forall a, b | a in ns && b in ns && a != b :: ns[a] != ns[b])
  }

  class Manager {
    var terminals: map<string, Terminal.EmbeddedTerminal>
    var notifiers: map<string, Notifier.JsonlNotifier>
    var activeId: Option<string>
    var order: seq<string>
    var checkCount: nat

    /** The manager's contents as a value. */
    function Contents(): Tabs
      reads this, terminals.Values, notifiers.Values
    {
      Tabs(SlotsOf(terminals), WatchesOf(notifiers), activeId, order, checkCount)
    }

    /** The contents are coherent and the objects are stored as `Stored` says. */
    ghost predicate Valid()
      reads this, terminals.Values, notifiers.Values
    {
      Coherent(Contents()) && Stored(terminals, notifiers)
    }

    constructor ()
      ensures Valid()
      ensures Contents() == Tabs(map[], map[], None, [], 0)
    {
      terminals := map[];
      notifiers := map[];
      activeId := None;
      order := [];
      checkCount := 0;
      new;
      EmptyCoherent();
      assert Contents() == Tabs(map[], map[], None, [], 0);
    }

    function ActiveTerminal(): (r: Option<Terminal.EmbeddedTerminal>)
      reads this
      ensures r.Some? <==> activeId.Some? && activeId.value in terminals
      ensures r.Some? ==> r.value == terminals[activeId.value]
    {
      if activeId.Some? && activeId.value in terminals then Some(terminals[activeId.value]) else None
    }

    function ActiveIsExited(): (b: bool)
      reads this, terminals.Values
      ensures b <==> ShownSlot(Contents()).Some? && ShownSlot(Contents()).value.term.exited
    {
      ActiveTerminal().Some? && ActiveTerminal().value.exited
    }

    function IsAttached(sessionId: string): (b: bool)
      reads this, terminals.Values, notifiers.Values
      ensures b <==> sessionId in Contents().slots
    {
      sessionId in terminals
    }

    function HasBellFor(sessionId: string): (b: bool)
      reads this, terminals.Values, notifiers.Values
      ensures b <==> sessionId in Contents().slots && Contents().slots[sessionId].term.bell
    {
      sessionId in terminals && terminals[sessionId].bell
    }

    function TabInfo(): (r: seq<TabEntry>)
      reads this, terminals.Values, notifiers.Values
      ensures r == TabBar(Contents())
    {
      TabsFor(Contents(), order)
    }

    method ClearActiveBells()
      requires Valid()
      modifies terminals.Values
      ensures Valid()
      ensures Contents() == ClearActive(old(Contents()))
    {
      ghost var before := Contents();
      ClearActiveEffect(before);
      if activeId.Some? && activeId.value in terminals {
        var id := activeId.value;
        var term := terminals[id];
        term.ClearBell();
        forall k | k in terminals ensures SlotsOf(terminals)[k] == ClearActive(before).slots[k] {
          if k != id {
            assert terminals[k].sessionId != term.sessionId;
          }
        }
        ghost var slots := SlotsOf(terminals);
        assert slots == ClearActive(before).slots;
        assert unchanged(notifiers.Values);
        ghost var watches := WatchesOf(notifiers);
        assert watches == before.watches;
        assert Contents() == Tabs(slots, watches, activeId, order, checkCount);
      }
    }

    method Detach()
      requires Valid()
      modifies this`activeId
      ensures Valid()
      ensures Contents() == old(Contents()).(activeId := None)
    {
      ghost var before := Contents();
      activeId := None;
      assert unchanged(terminals.Values) && unchanged(notifiers.Values);
      assert Contents() == before.(activeId := None);
    }
  
    /** Keystrokes for the shown terminal, if any. */
    method WriteToActive(bytes: seq<Text.byte>, outcome: Terminal.WriteOutcome) returns (r: Result<(), string>)
      requires Valid()
      modifies terminals.Values
      ensures Valid()
      ensures (Contents(), r) == AfterWriteToActive(old(Contents()), bytes, outcome)
    {
      ghost var before := Contents();
      WriteTouchesOnlyActive(before, bytes, outcome);
      var shown := ActiveTerminal();
      if shown.None? {
        return Ok(());
      }
      var id := activeId.value;
      var term := shown.value;
      ghost var expected := AfterWriteToActive(before, bytes, outcome);
      r := term.WriteInput(bytes, outcome);
      forall k | k in terminals ensures SlotsOf(terminals)[k] == expected.0.slots[k] {
        if k != id {
          assert terminals[k].sessionId != term.sessionId;
        }
      }
      ghost var slots := SlotsOf(terminals);
      assert slots == expected.0.slots;
      assert unchanged(notifiers.Values);
      ghost var watches := WatchesOf(notifiers);
      assert watches == before.watches;
      assert Contents() == Tabs(slots, watches, activeId, order, checkCount);
    }

    /** A new size for the shown terminal, if any. */
    method ResizeActive(rows: Terminal.u16, cols: Terminal.u16, ptyError: Option<string>) returns (r: Result<(), string>)
      requires Valid()
      modifies terminals.Values
      ensures Valid()
      ensures (Contents(), r) == AfterResizeActive(old(Contents()), rows, cols, ptyError)
    {
      ghost var before := Contents();
      ResizeTouchesOnlyActive(before, rows, cols, ptyError);
      var shown := ActiveTerminal();
      if shown.None? {
        return Ok(());
      }
      var id := activeId.value;
      var term := shown.value;
      ghost var expected := AfterResizeActive(before, rows, cols, ptyError);
      r := term.Resize(rows, cols, ptyError);
      forall k | k in terminals ensures SlotsOf(terminals)[k] == expected.0.slots[k] {
        if k != id {
          assert terminals[k].sessionId != term.sessionId;
        }
      }
      ghost var slots := SlotsOf(terminals);
      assert slots == expected.0.slots;
      assert unchanged(notifiers.Values);
      ghost var watches := WatchesOf(notifiers);
      assert watches == before.watches;
      assert Contents() == Tabs(slots, watches, activeId, order, checkCount);
    }

    /** Makes `id` the shown tab. */
    method SetActive(id: string)
      requires Valid() && id in terminals
      modifies this`activeId
      ensures Valid()
      ensures Contents() == old(Contents()).(activeId := Some(id))
    {
      ghost var c0 := Contents();
      activeId := Some(id);
      assert unchanged(terminals.Values) && unchanged(notifiers.Values);
      assert Contents() == c0.(activeId := Some(id));
    }

    /** Makes `id` the shown tab and acknowledges its bell. */
    method Activate(id: string)
      requires Valid() && id in terminals
      modifies this`activeId, terminals.Values
      ensures Valid()
      ensures Contents() == ClearActive(old(Contents()).(activeId := Some(id)))
    {
      SetActive(id);
      ClearActiveBells();
    }

    /** Shows the tab `id`, acknowledging the bells of the tab left and of `id`. */
    method SwitchTo(id: string)
      requires Valid() && id in terminals
      modifies this`activeId, terminals.Values
      ensures Valid()
      ensures Contents() == SwitchedTo(old(Contents()), id)
    {
      ClearActiveBells();
      Activate(id);
    }

    /** The shown tab's index in the order, found by a forward search; 0
        when no tab is shown or the shown one has no tab. */
    method ActiveIndex() returns (i: nat)
      ensures i == CurrentIndex(Contents())
    {
      i := 0;
      if activeId.None? {
        return;
      }
      var id := activeId.value;
      var k := 0;
      PositionFromStep(order, id, 0);
      while k < |order| && order[k] != id
        invariant 0 <= k <= |order|
        invariant Position(order, id) == PositionFrom(order, id, k)
        decreases |order| - k
      {
        PositionFromStep(order, id, k);
        k := k + 1;
      }
      PositionFromStep(order, id, k);
      if k < |order| {
        i := k;
      }
    }

    /** Shows the next tab, wrapping to the first; with no tabs nothing happens. */
    method CycleNext()
      requires Valid()
      modifies this`activeId, terminals.Values
      ensures Valid()
      ensures Contents() == AfterCycleNext(old(Contents()))
    {
      if |order| == 0 {
        return;
      }
      var i := ActiveIndex();
      assert i < |order| by { CurrentIndexBound(Contents()); }
      var id := order[NextIndex(i, |order|)];
      assert id in Elems(order);
      SwitchTo(id);
    }

    /** Shows the previous tab, wrapping to the last; with no tabs nothing happens. */
    method CyclePrev()
      requires Valid()
      modifies this`activeId, terminals.Values
      ensures Valid()
      ensures Contents() == AfterCyclePrev(old(Contents()))
    {
      if |order| == 0 {
        return;
      }
      var i := ActiveIndex();
      assert i < |order| by { CurrentIndexBound(Contents()); }
      var id := order[PrevIndex(i, |order|)];
      assert id in Elems(order);
      SwitchTo(id);
    }

    /** Stores a new terminal (and its notifier, if it has one) under `id`
        and gives it the last tab; nothing else changes. */
    /** The three updates that store a new tab. */
    method InsertTab(id: string, term: Terminal.EmbeddedTerminal, notifier: Option<Notifier.JsonlNotifier>)
      modifies this`order, this`terminals, this`notifiers
      ensures order == old(order) + [id]
      ensures terminals == old(terminals)[id := term]
      ensures notifiers == if notifier.None? then old(notifiers) else old(notifiers)[id := notifier.value]
      ensures SlotsOf(terminals) == old(SlotsOf(terminals))[id := Slot(term.projectName, term.launch, term.State())]
      ensures WatchesOf(notifiers) == if notifier.None? then old(WatchesOf(notifiers))
        else old(WatchesOf(notifiers))[id := Watch(notifier.value.projectDir, notifier.value.Snapshot())]
    {
      ghost var ts0, ns0 := terminals, notifiers;
      ghost var s0, w0 := SlotsOf(ts0), WatchesOf(ns0);
      order := order + [id];
      terminals := terminals[id := term];
      if notifier.Some? {
        notifiers := notifiers[id := notifier.value];
      }
      assert SlotsOf(ts0) == s0 && WatchesOf(ns0) == w0;
      SlotsOfInsert(ts0, id, term);
      if notifier.Some? {
        WatchesOfInsert(ns0, id, notifier.value);
      }
    }

    /** Stores a new terminal (and its notifier, if it has one) under `id`
        and gives it the last tab; nothing else changes. */
    method AddTab(id: string, term: Terminal.EmbeddedTerminal, notifier: Option<Notifier.JsonlNotifier>)
      requires Valid() && id !in terminals && term.sessionId == id
      requires notifier.Some? ==> notifier.value !in notifiers.Values && notifier.value.Valid()
      modifies this`order, this`terminals, this`notifiers
      ensures terminals == old(terminals)[id := term]
      ensures notifiers == if notifier.None? then old(notifiers) else old(notifiers)[id := notifier.value]
      ensures Valid()
      ensures Contents() == WithTab(old(Contents()), id, Slot(term.projectName, term.launch, term.State()),
        if notifier.None? then None else Some(Watch(notifier.value.projectDir, notifier.value.Snapshot())))
    {
      ghost var c0 := Contents();
      ghost var slot := Slot(term.projectName, term.launch, term.State());
      ghost var watch := if notifier.None? then None else Some(Watch(notifier.value.projectDir, notifier.value.Snapshot()));
      AddTabKeepsCoherent(c0, id, slot, watch);
      StoredInsert(terminals, notifiers, id, term, notifier);
      InsertTab(id, term, notifier);
      assert Contents() == WithTab(c0, id, slot, watch);
    }

    /** Stores a new tab and shows it. */
    method OpenTab(id: string, term: Terminal.EmbeddedTerminal, notifier: Option<Notifier.JsonlNotifier>)
      requires Valid() && id !in terminals && term.sessionId == id
      requires notifier.Some? ==> notifier.value !in notifiers.Values && notifier.value.Valid()
      modifies this, terminals.Values, term
      ensures Valid()
      ensures Contents() == ClearActive(WithTab(old(Contents()), id, old(Slot(term.projectName, term.launch, term.State())),
        if notifier.None? then None else Some(Watch(notifier.value.projectDir, notifier.value.Snapshot()))).(activeId := Some(id)))
    {
      AddTab(id, term, notifier);
      Activate(id);
    }

    /** A new terminal for session `id`; the manager's contents do not change. */
    method Spawn(id: string, projectName: string, launch: Terminal.Launch, rows: Terminal.u16, cols: Terminal.u16)
      returns (term: Terminal.EmbeddedTerminal)
      ensures fresh(term) && term.sessionId == id && term.projectName == projectName && term.launch == launch
      ensures term.State() == Terminal.Spawned(rows, cols)
      ensures Contents() == old(Contents())
    {
      term := new Terminal.EmbeddedTerminal(id, projectName, launch, rows, cols);
    }

    /** A new notifier for session `id` started in `cwd`; the manager's contents do not change. */
    method Watcher(home: Option<string>, cwd: string, id: string, logExists: bool, logSize: Option<nat>)
      returns (n: Notifier.JsonlNotifier)
      ensures fresh(n) && n.Valid() && n.projectDir == Notifier.ProjectDir(home, cwd)
      ensures n.Snapshot() == Notifier.Initial(home, cwd, id, logExists, logSize)
      ensures Contents() == old(Contents())
    {
      n := new Notifier.JsonlNotifier(home, cwd, id, logExists, logSize);
    }

    /** Attaches a known session, resuming it on a new terminal when it is
        not attached yet; `spawnError` is the spawn's failure, if any, and
        `home`, `logExists` and `logSize` what the new notifier finds. */
    method Attach(sessionId: string, projectName: string, cwd: string, rows: Terminal.u16, cols: Terminal.u16,
                  spawnError: Option<string>, home: Option<string>, logExists: bool, logSize: Option<nat>)
      returns (r: Result<(), string>)
      requires Valid()
      modifies this, terminals.Values
      ensures Valid()
      ensures (Contents(), r) == AfterAttach(old(Contents()), sessionId, projectName, cwd, rows, cols, spawnError, home, logExists, logSize)
    {
      ghost var expected := AfterAttach(Contents(), sessionId, projectName, cwd, rows, cols, spawnError, home, logExists, logSize);
      ClearActiveBells();
      ghost var c1 := Contents();
      if sessionId !in terminals {
        assert expected == if spawnError.Some? then (c1, Err(spawnError.value))
          else (ClearActive(WithTab(c1, sessionId, ResumedSlot(sessionId, projectName, cwd, rows, cols),
                  Some(NewWatch(home, cwd, sessionId, logExists, logSize))).(activeId := Some(sessionId))), Ok(()));
        r := Resume(sessionId, projectName, cwd, rows, cols, spawnError, home, logExists, logSize);
      } else {
        assert expected == (ClearActive(c1.(activeId := Some(sessionId))), Ok(()));
        Activate(sessionId);
        r := Ok(());
      }
    }

    /** Resumes `sessionId` on a new terminal with its own notifier and
        shows it, unless spawning fails. */
    method Resume(sessionId: string, projectName: string, cwd: string, rows: Terminal.u16, cols: Terminal.u16,
                  spawnError: Option<string>, home: Option<string>, logExists: bool, logSize: Option<nat>)
      returns (r: Result<(), string>)
      requires Valid() && sessionId !in terminals
      modifies this, terminals.Values
      ensures Valid()
      ensures (Contents(), r) == if spawnError.Some? then (old(Contents()), Err(spawnError.value))
        else (ClearActive(WithTab(old(Contents()), sessionId, ResumedSlot(sessionId, projectName, cwd, rows, cols),
                Some(NewWatch(home, cwd, sessionId, logExists, logSize))).(activeId := Some(sessionId))), Ok(()))
    {
      if spawnError.Some? {
        return Err(spawnError.value);
      }
      var term := Spawn(sessionId, projectName, Terminal.ResumeLaunch(sessionId, cwd), rows, cols);
      var notifier := Watcher(home, cwd, sessionId, logExists, logSize);
      OpenTab(sessionId, term, Some(notifier));
      r := Ok(());
    }

    /** Starts a new session in `cwd`; `newId` is the fresh id it is given. */
    method AttachNew(newId: string, cwd: string, rows: Terminal.u16, cols: Terminal.u16,
                     spawnError: Option<string>, home: Option<string>, logExists: bool, logSize: Option<nat>)
      returns (r: Result<string, string>)
      requires Valid() && newId !in terminals
      modifies this, terminals.Values
      ensures Valid()
      ensures (Contents(), r) == AfterAttachNew(old(Contents()), newId, cwd, rows, cols, spawnError, home, logExists, logSize)
    {
      ghost var expected := AfterAttachNew(Contents(), newId, cwd, rows, cols, spawnError, home, logExists, logSize);
      ClearActiveBells();
      ghost var c1 := Contents();
      assert expected == if spawnError.Some? then (c1, Err(spawnError.value))
        else (WithTab(c1, newId, NewSlot(cwd, rows, cols), Some(NewWatch(home, cwd, newId, logExists, logSize))).(activeId := Some(newId)), Ok(newId));
      r := StartNew(newId, cwd, rows, cols, spawnError, home, logExists, logSize);
    }

    /** Starts the new session on a new terminal with its own notifier and
        shows it, unless spawning fails. */
    method StartNew(newId: string, cwd: string, rows: Terminal.u16, cols: Terminal.u16,
                    spawnError: Option<string>, home: Option<string>, logExists: bool, logSize: Option<nat>)
      returns (r: Result<string, string>)
      requires Valid() && newId !in terminals
      modifies this, terminals.Values
      ensures Valid()
      ensures (Contents(), r) == if spawnError.Some? then (old(Contents()), Err(spawnError.value))
        else (WithTab(old(Contents()), newId, NewSlot(cwd, rows, cols), Some(NewWatch(home, cwd, newId, logExists, logSize))).(activeId := Some(newId)), Ok(newId))
    {
      if spawnError.Some? {
        return Err(spawnError.value);
      }
      var term := Spawn(newId, Terminal.NewProjectName(cwd), Terminal.NewLaunch(cwd), rows, cols);
      var notifier := Watcher(home, cwd, newId, logExists, logSize);
      AddTab(newId, term, Some(notifier));
      SetActive(newId);
      r := Ok(newId);
    }

    /** Attaches a remote session over ssh; such a tab has no notifier. */
    method AttachSsh(implId: string, projectName: string, sshCommand: string, rows: Terminal.u16, cols: Terminal.u16,
                     spawnError: Option<string>)
      returns (r: Result<(), string>)
      requires Valid()
      modifies this, terminals.Values
      ensures Valid()
      ensures (Contents(), r) == AfterAttachSsh(old(Contents()), implId, projectName, sshCommand, rows, cols, spawnError)
    {
      ClearActiveBells();
      if implId !in terminals {
        if spawnError.Some? {
          return Err(spawnError.value);
        }
        var term := Spawn(implId, projectName, Terminal.SshLaunch(sshCommand), rows, cols);
        AddTab(implId, term, None);
      }
      Activate(implId);
      r := Ok(());
    }

    /** Removes the tabs in `d` with their terminals and notifiers. */
    method DropTabs(d: set<string>)
      modifies this`order, this`terminals, this`notifiers
      ensures terminals == old(terminals) - d && notifiers == old(notifiers) - d
      ensures order == Without(old(order), d)
      ensures SlotsOf(terminals) == old(SlotsOf(terminals)) - d
      ensures WatchesOf(notifiers) == old(WatchesOf(notifiers)) - d
    {
      ghost var ts0, ns0 := terminals, notifiers;
      ghost var s0, w0 := SlotsOf(ts0), WatchesOf(ns0);
      terminals := terminals - d;
      notifiers := notifiers - d;
      order := Without(order, d);
      assert SlotsOf(ts0) == s0 && WatchesOf(ns0) == w0;
      assert SlotsOf(terminals) == s0 - d;
      assert WatchesOf(notifiers) == w0 - d;
    }

    /** Closes the shown tab: its terminal, its notifier and its place in
        the tab order go, and no tab is shown. */
    method RemoveActive()
      requires Valid()
      modifies this
      ensures Valid()
      ensures Contents() == AfterRemoveActive(old(Contents()))
    {
      ghost var c0 := Contents();
      RemoveActiveOutcome(c0);
      if activeId.Some? {
        var id := activeId.value;
        Detach();
        ghost var c1 := Contents();
        StoredRemove(terminals, notifiers, {id});
        DropTabs({id});
        assert Contents() == c1.(slots := c1.slots - {id}, watches := c1.watches - {id}, order := Without(c1.order, {id}));
      }
    }

    /** Drops every exited terminal except the shown one. */
    method CleanupInactiveExited()
      requires Valid()
      modifies this`order, this`terminals, this`notifiers
      ensures Valid()
      ensures Contents() == AfterCleanup(old(Contents()))
    {
      ghost var c0 := Contents();
      CleanupOutcome(c0);
      var active := activeId;
      var dead := set id | id in terminals && terminals[id].exited && active != Some(id);
      assert dead == (set id | id in c0.slots && c0.slots[id].term.exited && c0.activeId != Some(id));
      StoredRemove(terminals, notifiers, dead);
      DropAll(dead);
      assert Contents() == AfterCleanup(c0);
    }

    /** Removes the tabs in `dead`; the terminals and notifiers themselves do not change. */
    method DropAll(dead: set<string>)
      modifies this`order, this`terminals, this`notifiers
      ensures terminals == old(terminals) - dead && notifiers == old(notifiers) - dead
      ensures order == Without(old(order), dead)
      ensures SlotsOf(terminals) == old(SlotsOf(terminals)) - dead
      ensures WatchesOf(notifiers) == old(WatchesOf(notifiers)) - dead
    {
      ghost var ts0, ns0 := terminals, notifiers;
      ghost var s0, w0 := SlotsOf(ts0), WatchesOf(ns0);
      DropEach(dead);
      assert SlotsOf(ts0) == s0 && WatchesOf(ns0) == w0;
      SlotsOfRemove(ts0, dead);
      WatchesOfRemove(ns0, dead);
    }

    /** Removes the tabs in `dead` one at a time, in no particular order. */
    method DropEach(dead: set<string>)
      modifies this`order, this`terminals, this`notifiers
      ensures terminals == old(terminals) - dead && notifiers == old(notifiers) - dead
      ensures order == Without(old(order), dead)
    {
      ghost var ts0, ns0, o0 := terminals, notifiers, order;
      WithoutAbsent(order, {});
      assert terminals == ts0 - {} && notifiers == ns0 - {};
      var todo := dead;
      ghost var removed: set<string> := {};
      while todo != {}
        invariant removed + todo == dead && removed !! todo
        invariant terminals == ts0 - removed && notifiers == ns0 - removed
        invariant order == Without(o0, removed)
        decreases |todo|
      {
        var id :| id in todo;
        MinusStep(ts0, removed, id);
        MinusStep(ns0, removed, id);
        terminals := terminals - {id};
        notifiers := notifiers - {id};
        order := Without(order, {id});
        WithoutTwice(o0, removed, {id});
        removed := removed + {id};
        todo := todo - {id};
      }
      assert removed == dead;
    }

    /** One notifier's check; only that notifier changes. */
    method CheckOne(id: string, input: Notifier.CheckInput) returns (fire: bool)
      requires Valid() && id in notifiers
      modifies notifiers[id]
      ensures Valid()
      ensures (Contents(), fire) == CheckStep(old(Contents()), id, input)
    {
      ghost var before := Contents();
      ghost var expected := CheckStep(before, id, input);
      CheckStepKeepsCoherent(before, id, input);
      assert before.watches[id] == Watch(notifiers[id].projectDir, notifiers[id].Snapshot());
      fire := CheckNotifier(id, input);
      assert unchanged(terminals.Values);
      ghost var slots := SlotsOf(terminals);
      assert slots == before.slots;
      assert Contents() == Tabs(slots, WatchesOf(notifiers), activeId, order, checkCount);
    }

    /** Runs the check of notifier `id`; the others keep their state. */
    method CheckNotifier(id: string, input: Notifier.CheckInput) returns (fire: bool)
      requires id in notifiers && notifiers[id].Valid()
      requires forall a, b | a in notifiers && b in notifiers && a != b :: notifiers[a] != notifiers[b]
      modifies notifiers[id]
      ensures notifiers[id].Valid()
      ensures (notifiers[id].Snapshot(), fire) == Notifier.CheckSpec(notifiers[id].projectDir, old(notifiers[id].Snapshot()), input)
      ensures WatchesOf(notifiers) == old(WatchesOf(notifiers))[id := Watch(notifiers[id].projectDir, notifiers[id].Snapshot())]
    {
      ghost var before := WatchesOf(notifiers);
      var n := notifiers[id];
      fire := n.Check(input);
      forall k | k in notifiers
        ensures WatchesOf(notifiers)[k] == before[id := Watch(n.projectDir, n.Snapshot())][k]
      {
        if k != id {
          assert notifiers[k] != n;
        }
      }
    }

    /** Sets the bell of terminal `id`. */
    method RingBell(id: string)
      requires Valid() && id in terminals
      modifies terminals[id]
      ensures Valid()
      ensures Contents() == Ring(old(Contents()), id)
    {
      ghost var before := Contents();
      RingKeepsCoherent(before, id);
      SetBellOf(id);
      assert unchanged(notifiers.Values);
      ghost var watches := WatchesOf(notifiers);
      assert watches == before.watches;
      assert Contents() == Tabs(SlotsOf(terminals), watches, activeId, order, checkCount);
    }

    /** Sets the bell of terminal `id`; the others keep their state. */
    method SetBellOf(id: string)
      requires id in terminals
      requires forall k | k in terminals :: terminals[k].sessionId == k
      modifies terminals[id]
      ensures SlotsOf(terminals) == old(SlotsOf(terminals))[id := old(SlotsOf(terminals))[id].(term := Terminal.WithBell(old(terminals[id].State())))]
    {
      ghost var before := SlotsOf(terminals);
      var term := terminals[id];
      term.SetBell();
      forall k | k in terminals
        ensures SlotsOf(terminals)[k] == before[id := before[id].(term := Terminal.WithBell(old(term.State())))][k]
      {
        if k != id {
          assert terminals[k].sessionId != term.sessionId;
        }
      }
    }

    /** One notifier's check, and its terminal's bell when it asks for it. */
    method CheckAndRing(id: string, input: Notifier.CheckInput) returns (fire: bool)
      requires Valid() && id in notifiers
      modifies notifiers.Values, terminals.Values
      ensures Valid()
      ensures unchanged(this)
      ensures var (t1, f) := CheckStep(old(Contents()), id, input);
        fire == f && Contents() == if f then Ring(t1, id) else t1
    {
      ghost var step := CheckStep(Contents(), id, input);
      fire := CheckOne(id, input);
      assert Contents() == step.0 && fire == step.1;
      if fire && id in terminals {
        RingBell(id);
        assert Contents() == Ring(step.0, id);
      }
    }

    /** Advances the check counter. */
    method CountCheck()
      requires Valid()
      modifies this`checkCount
      ensures Valid()
      ensures Contents() == old(Contents()).(checkCount := old(checkCount) + 1)
    {
      ghost var c0 := Contents();
      checkCount := checkCount + 1;
      assert unchanged(terminals.Values) && unchanged(notifiers.Values);
      assert Contents() == c0.(checkCount := c0.checkCount + 1);
    }

    /** The periodic check: the counter advances, then the notifiers are
        checked in `iteration` (the order the notifier map yields them) and
        the first that asks for the bell rings its terminal and ends the
        round. `inputs` is what each notifier finds on disk; `rung` is the
        notifier that rang, for which the terminal bell character is written. */
    method CheckAndForwardNotifications(iteration: seq<string>, inputs: map<string, Notifier.CheckInput>)
      returns (rung: Option<string>)
      requires Valid()
      requires NoDuplicates(iteration) && Elems(iteration) == notifiers.Keys && notifiers.Keys <= inputs.Keys
      modifies this`checkCount, notifiers.Values, terminals.Values
      ensures Valid()
      ensures (Contents(), rung) == AfterCheckAndForward(old(Contents()), iteration, inputs)
    {
      ghost var c0 := Contents();
      CountCheck();
      var i := 0;
      while i < |iteration|
        invariant 0 <= i <= |iteration|
        invariant Valid()
        invariant terminals == old(terminals) && notifiers == old(notifiers)
        invariant CheckFrom(Contents(), iteration[i..], inputs) == AfterCheckAndForward(c0, iteration, inputs)
      {
        var id := iteration[i];
        assert id in Elems(iteration);
        ghost var c := Contents();
        assert id in c.watches;
        CheckFromStep(c, iteration[i..], inputs);
        assert iteration[i..][1..] == iteration[i + 1..];
        var fire := CheckAndRing(id, inputs[id]);
        if fire {
          return Some(id);
        }
        i := i + 1;
      }
      rung := None;
    }
  }
}

