/**
 Several commands at once. A mutating command takes the lock file, or runs beneath a wrapper that
 holds it; readers take nothing. The file is replaced through one temporary beside it, so the
 model keeps inodes: a writer that was let in twice would write into a file a reader has open.
 */
module Locking {
  import opened Wrappers

  /** What a command adds to the file is known by the command that added it. */
  type Content = seq<nat>

  datatype Inode = Partial | Whole(content: Content)

  /** Where a command is in its load-modify-save. */
  datatype Phase =
    | Outside
    | Entered
    | Loaded(copy: Content)
    | Opened(copy: Content, fd: nat)
    | Flushed(content: Content, fd: nat)

  datatype World = World(
    inodes: seq<Inode>,
    live: nat,
    tmp: Option<nat>,
    /** The lock's holder: a wrapper, or a command that runs without one. */
    holder: Option<nat>,
    phases: map<nat, Phase>,
    /** The inodes that readers have open. */
    readers: map<nat, nat>,
    /** Every save that took effect, in order. */
    history: Content)

  /** A command p is beneath the wrapper `under(p)`, or takes the lock itself: `under(p) == p`. */
  type Wrapping = nat -> nat

  datatype Event =
    | WrapperTakes(wrapper: nat)
    | WrapperDrops(wrapper: nat)
    | Enter(p: nat)
    | EnterUnlocked(p: nat)
    | Load(p: nat)
    | OpenTemporary(p: nat)
    | WriteSome(p: nat)
    | Flush(p: nat)
    | Replace(p: nat)
    | Unlink(p: nat)
    | Leave(p: nat)
    | ReaderOpens(r: nat)
    | ReaderCloses(r: nat)

  function PhaseOf(w: World, p: nat): Phase
  {
    if p in w.phases then w.phases[p] else Outside
  }

  predicate Inside(w: World, p: nat)
  {
    PhaseOf(w, p) != Outside
  }

  predicate NobodyInside(w: World)
  {
    forall p | p in w.phases :: !Inside(w, p)
  }

  /** When an event can happen. A command refused by the lock never enters. */
  predicate Can(under: Wrapping, w: World, e: Event)
  {
    match e
    case WrapperTakes(g) => w.holder.None?
    case WrapperDrops(g) => w.holder == Some(g) && NobodyInside(w)
    case Enter(p) =>
      !Inside(w, p) && (if under(p) == p then w.holder.None? else w.holder == Some(under(p)) && NobodyInside(w))
    case EnterUnlocked(p) => !Inside(w, p)
    case Load(p) => PhaseOf(w, p).Entered? || PhaseOf(w, p).Loaded?
    case OpenTemporary(p) => PhaseOf(w, p).Loaded?
    case WriteSome(p) => PhaseOf(w, p).Opened?
    case Flush(p) => PhaseOf(w, p).Opened?
    case Replace(p) => PhaseOf(w, p).Flushed? && w.tmp.Some?
    case Unlink(p) => PhaseOf(w, p).Opened? || PhaseOf(w, p).Flushed?
    case Leave(p) => Inside(w, p)
    case ReaderOpens(r) => true
    case ReaderCloses(r) => r in w.readers
  }

  function ContentOf(i: Inode): Content
  {
    match i case Partial => [] case Whole(c) => c
  }

  function Set(w: World, p: nat, phase: Phase): World
  {
    w.(phases := w.phases[p := phase])
  }

  /** Opening with truncation: the inode the name has, emptied, or a new one. */
  function Truncated(w: World): (World, nat)
    requires w.tmp.Some? ==> w.tmp.value < |w.inodes|
  {
    match w.tmp
    case Some(i) => (w.(inodes := w.inodes[i := Partial]), i)
    case None => (w.(inodes := w.inodes + [Partial], tmp := Some(|w.inodes|)), |w.inodes|)
  }

  predicate Ranged(w: World)
  {
    && w.live < |w.inodes|
    && (w.tmp.Some? ==> w.tmp.value < |w.inodes|)
    && (forall p | p in w.phases && w.phases[p].Opened? :: w.phases[p].fd < |w.inodes|)
    && (forall p | p in w.phases && w.phases[p].Flushed? :: w.phases[p].fd < |w.inodes|)
    && (forall r | r in w.readers :: w.readers[r] < |w.inodes|)
  }

  function Do(under: Wrapping, w: World, e: Event): World
    requires Can(under, w, e) && Ranged(w)
  {
    match e
    case WrapperTakes(g) => w.(holder := Some(g))
    case WrapperDrops(g) => w.(holder := None)
    case Enter(p) => Set(w, p, Entered).(holder := Some(under(p)))
    case EnterUnlocked(p) => Set(w, p, Entered)
    case Load(p) => Set(w, p, Loaded(ContentOf(w.inodes[w.live])))
    case OpenTemporary(p) => var (v, fd) := Truncated(w); Set(v, p, Opened(w.phases[p].copy, fd))
    case WriteSome(p) => w.(inodes := w.inodes[w.phases[p].fd := Partial])
    case Flush(p) =>
      var Opened(copy, fd) := w.phases[p];
      Set(w.(inodes := w.inodes[fd := Whole(copy + [p])]), p, Flushed(copy + [p], fd))
    case Replace(p) =>
      Set(w.(live := w.tmp.value, tmp := None, history := w.history + [p]), p, Entered)
    case Unlink(p) => Set(w.(tmp := None), p, Entered)
    // Finished, failed or killed: descriptors are closed and the kernel drops a lock of its own.
    case Leave(p) => Set(w, p, Outside).(holder := if w.holder == Some(p) && under(p) == p then None else w.holder)
    case ReaderOpens(r) => w.(readers := w.readers[r := w.live])
    case ReaderCloses(r) => w.(readers := w.readers - {r})
  }

  // -------------------------------------------------------------------------- the invariant

  ghost predicate OneInside(under: Wrapping, w: World)
  {
    && (forall p, q | Inside(w, p) && Inside(w, q) :: p == q)
    && (forall p | Inside(w, p) :: w.holder == Some(under(p)))
  }

  /** The file is whole and holds every save that took effect. */
  predicate NothingLost(w: World)
  {
    w.live < |w.inodes| && w.inodes[w.live] == Whole(w.history)
  }

  /** What a writer has in hand builds on the file as it is. */
  predicate UpToDate(w: World, phase: Phase)
  {
    match phase
    case Outside => true
    case Entered => true
    case Loaded(copy) => copy == w.history
    case Opened(copy, fd) => copy == w.history && w.tmp == Some(fd)
    case Flushed(content, fd) =>
      w.tmp == Some(fd) && fd < |w.inodes| && w.inodes[fd] == Whole(content) && |content| > 0
      && content[..|content| - 1] == w.history
  }

  /** What a reader has open is one whole version of the file, old or new. */
  ghost predicate ReadsWhole(w: World)
  {
    forall r | r in w.readers ::
      w.readers[r] < |w.inodes| && w.inodes[w.readers[r]].Whole? && w.inodes[w.readers[r]].content <= w.history
      && w.tmp != Some(w.readers[r])
  }

  ghost predicate Serialised(under: Wrapping, w: World)
  {
    && Ranged(w) && OneInside(under, w) && NothingLost(w) && ReadsWhole(w)
    && w.tmp != Some(w.live)
    && (forall p | p in w.phases :: UpToDate(w, w.phases[p]))
    && (forall p | p in w.phases && w.phases[p].Flushed? :: w.phases[p].content == w.history + [p])
  }

  predicate Locked(e: Event)
  {
    !e.EnterUnlocked?
  }

  /** Whatever any command, wrapper or reader does next, everything stays as it has to be. */
  lemma EventKeepsSerialised(under: Wrapping, w: World, e: Event)
    requires Serialised(under, w) && Can(under, w, e) && Locked(e)
    ensures Serialised(under, Do(under, w, e))
  {
    OneStaysInside(under, w, e);
    if e.Load? || e.OpenTemporary? || e.WriteSome? || e.Flush? || e.Replace? || e.Unlink? {
      OthersOutside(under, w, e.p);
    }
    hide OneInside, Serialised, Do, Can, Alone;
    match e
    case Load(p) => LoadingIsSafe(under, w, p);
    case OpenTemporary(p) => OpeningIsSafe(under, w, p);
    case WriteSome(p) => WritingIsSafe(under, w, p);
    case Flush(p) => FlushingIsSafe(under, w, p);
    case Replace(p) => ReplacingIsSafe(under, w, p);
    case Unlink(p) => UnlinkingIsSafe(under, w, p);
    case _ => TheRestIsSafe(under, w, e);
  }

  /** Events that touch neither the disk nor what a writer has in hand. */
  lemma TheRestIsSafe(under: Wrapping, w: World, e: Event)
    requires Serialised(under, w) && Can(under, w, e) && Locked(e)
    requires !(e.Load? || e.OpenTemporary? || e.WriteSome? || e.Flush? || e.Replace? || e.Unlink?)
    ensures Kept(under, w, e)
  {
    hide OneInside;
  }

  lemma OneStaysInside(under: Wrapping, w: World, e: Event)
    requires Serialised(under, w) && Can(under, w, e) && Locked(e)
    ensures OneInside(under, Do(under, w, e))
  {
    hide NothingLost, ReadsWhole, UpToDate;
    var v := Do(under, w, e);
    if e.Enter? {
      forall q | q in w.phases ensures !Inside(w, q) {
        assert Inside(w, q) ==> w.holder == Some(under(q));
      }
      assert forall q | Inside(v, q) :: q == e.p;
    } else {
      assert forall q | Inside(v, q) :: Inside(w, q);
    }
  }

  predicate Alone(w: World, p: nat)
  {
    forall q | q in w.phases && q != p :: w.phases[q].Outside?
  }

  lemma OthersOutside(under: Wrapping, w: World, p: nat)
    requires OneInside(under, w) && Inside(w, p)
    ensures Alone(w, p)
  {
    forall q | q in w.phases && q != p ensures w.phases[q].Outside? {
      assert !Inside(w, q);
    }
  }

  ghost predicate Kept(under: Wrapping, w: World, e: Event)
    requires Ranged(w) && Can(under, w, e)
  {
    OneInside(under, Do(under, w, e)) ==> Serialised(under, Do(under, w, e))
  }

  lemma LoadingIsSafe(under: Wrapping, w: World, p: nat)
    requires Serialised(under, w) && Can(under, w, Load(p)) && Alone(w, p)
    ensures Kept(under, w, Load(p))
  {
    hide OneInside;
  }

  lemma UnlinkingIsSafe(under: Wrapping, w: World, p: nat)
    requires Serialised(under, w) && Can(under, w, Unlink(p)) && Alone(w, p)
    ensures Kept(under, w, Unlink(p))
  {
    hide OneInside;
  }

  lemma OpeningIsSafe(under: Wrapping, w: World, p: nat)
    requires Serialised(under, w) && Can(under, w, OpenTemporary(p)) && Alone(w, p)
    ensures Kept(under, w, OpenTemporary(p))
  {
    hide OneInside;
  }

  lemma WritingIsSafe(under: Wrapping, w: World, p: nat)
    requires Serialised(under, w) && Can(under, w, WriteSome(p)) && Alone(w, p)
    ensures Kept(under, w, WriteSome(p))
  {
    hide OneInside;
  }

  lemma FlushingIsSafe(under: Wrapping, w: World, p: nat)
    requires Serialised(under, w) && Can(under, w, Flush(p)) && Alone(w, p)
    ensures Kept(under, w, Flush(p))
  {
    hide OneInside;
  }

  lemma ReplacingIsSafe(under: Wrapping, w: World, p: nat)
    requires Serialised(under, w) && Can(under, w, Replace(p)) && Alone(w, p)
    ensures Kept(under, w, Replace(p))
  {
    hide OneInside;
  }

  // ------------------------------------------------------------------------- over every run

  ghost predicate RunOf(under: Wrapping, ws: seq<World>, es: seq<Event>)
  {
    && |ws| == |es| + 1
    && forall i | 0 <= i < |es| :: Ranged(ws[i]) && Can(under, ws[i], es[i]) && ws[i + 1] == Do(under, ws[i], es[i])
  }

  /** In every interleaving where the lock file opens: one writer, nothing lost, whole reads. */
  lemma {:induction false} SerialisedThroughout(under: Wrapping, ws: seq<World>, es: seq<Event>, i: nat)
    requires RunOf(under, ws, es) && i < |ws| && Serialised(under, ws[0])
    requires forall e | e in es :: Locked(e)
    ensures Serialised(under, ws[i])
    decreases i
  {
    hide Serialised, Can, Do, Ranged;
    if i > 0 {
      SerialisedThroughout(under, ws, es, i - 1);
      EventKeepsSerialised(under, ws[i - 1], es[i - 1]);
    }
  }

  /** A save that took effect is never undone by another's: the history only grows. */
  lemma {:induction false} HistoryGrows(under: Wrapping, ws: seq<World>, es: seq<Event>, i: nat, j: nat)
    requires RunOf(under, ws, es) && i <= j < |ws| && Serialised(under, ws[0])
    requires forall e | e in es :: Locked(e)
    ensures ws[i].history <= ws[j].history
    ensures NothingLost(ws[j])
    decreases j - i
  {
    hide Can, Do, Ranged, OneInside, ReadsWhole, UpToDate;
    SerialisedThroughout(under, ws, es, j);
    if i < j {
      HistoryGrows(under, ws, es, i, j - 1);
      HistoryStep(under, ws[j - 1], es[j - 1]);
    }
  }

  lemma HistoryStep(under: Wrapping, w: World, e: Event)
    requires Ranged(w) && Can(under, w, e)
    ensures w.history <= Do(under, w, e).history
  {
  }

  function Start(): World
  {
    World([Whole([])], 0, None, None, map[], map[], [])
  }

  lemma StartIsSerialised(under: Wrapping)
    ensures Serialised(under, Start())
  {
  }

  // ------------------------------------------------------------ why the lock has to open

  /** Only these commands, whose lock file does not open, may go on without the lock. */
  predicate Allowed(unlocked: set<nat>, e: Event)
  {
    e.EnterUnlocked? ==> e.p in unlocked
  }

  /** Some run from an untouched file leads here. */
  ghost predicate Reaches(under: Wrapping, unlocked: set<nat>, w: World)
  {
    exists ws, es :: RunTo(under, unlocked, ws, es, w)
  }

  ghost predicate RunTo(under: Wrapping, unlocked: set<nat>, ws: seq<World>, es: seq<Event>, w: World)
  {
    RunOf(under, ws, es) && ws[0] == Start() && ws[|es|] == w && forall e | e in es :: Allowed(unlocked, e)
  }

  lemma StartIsReached(under: Wrapping, unlocked: set<nat>)
    ensures Reaches(under, unlocked, Start())
  {
    assert RunTo(under, unlocked, [Start()], [], Start());
  }

  lemma Further(under: Wrapping, unlocked: set<nat>, w: World, e: Event)
    requires Reaches(under, unlocked, w) && Ranged(w) && Can(under, w, e) && Allowed(unlocked, e)
    ensures Reaches(under, unlocked, Do(under, w, e))
  {
    hide Can, Do, Ranged;
    var ws, es :| RunTo(under, unlocked, ws, es, w);
    var v := Do(under, w, e);
    var ws', es' := ws + [v], es + [e];
    forall i | 0 <= i < |es'|
      ensures Ranged(ws'[i]) && Can(under, ws'[i], es'[i]) && ws'[i + 1] == Do(under, ws'[i], es'[i])
    {
      if i < |es| {
        assert ws'[i] == ws[i] && es'[i] == es[i] && ws'[i + 1] == ws[i + 1];
      }
    }
    assert RunTo(under, unlocked, ws', es', v);
  }

  /**
   Exactly when no update can be lost, over the commands whose lock file does not open: when there
   are none. One such command is enough, beside one that does hold the lock.
   */
  lemma NothingIsLostIff(under: Wrapping, unlocked: set<nat>)
    ensures (forall w | Reaches(under, unlocked, w) :: NothingLost(w)) <==> unlocked == {}
  {
    hide Reaches, NothingLost;
    if unlocked == {} {
      forall w | Reaches(under, unlocked, w) ensures NothingLost(w) {
        LockedLosesNothing(under, w);
      }
    } else {
      var p :| p in unlocked;
      OneUnlockedLosesAnUpdate(under, unlocked, p, p + 1);
    }
  }

  lemma LockedLosesNothing(under: Wrapping, w: World)
    requires Reaches(under, {}, w)
    ensures NothingLost(w)
  {
    hide Can, Do, Ranged, OneInside, ReadsWhole, UpToDate, Start;
    var ws, es :| RunTo(under, {}, ws, es, w);
    StartIsSerialised(under);
    assert forall e | e in es :: Locked(e);
    SerialisedThroughout(under, ws, es, |es|);
  }

  /** A save took effect, and the file no longer shows it. */
  predicate SavedAndLost(w: World, p: nat)
  {
    p in w.history && w.live < |w.inodes| && w.inodes[w.live].Whole? && p !in w.inodes[w.live].content
  }

  /** How far the two have got: q inside with the lock, p inside without it; then q saves, and p over it. */
  function Race(h: nat, p: nat, q: nat, k: nat): World
    requires p != q
  {
    var empty, mine, theirs := Whole([]), Whole([p]), Whole([q]);
    if k == 0 then World([empty], 0, None, Some(h), map[q := Entered], map[], [])
    else if k == 1 then World([empty], 0, None, Some(h), map[q := Entered, p := Entered], map[], [])
    else if k == 2 then World([empty], 0, None, Some(h), map[q := Loaded([]), p := Entered], map[], [])
    else if k == 3 then World([empty], 0, None, Some(h), map[q := Loaded([]), p := Loaded([])], map[], [])
    else if k == 4 then
      World([empty, Partial], 0, Some(1), Some(h), map[q := Opened([], 1), p := Loaded([])], map[], [])
    else if k == 5 then
      World([empty, theirs], 0, Some(1), Some(h), map[q := Flushed([q], 1), p := Loaded([])], map[], [])
    else if k == 6 then
      World([empty, theirs], 1, None, Some(h), map[q := Entered, p := Loaded([])], map[], [q])
    else if k == 7 then
      World([empty, theirs, Partial], 1, Some(2), Some(h), map[q := Entered, p := Opened([], 2)], map[], [q])
    else if k == 8 then
      World([empty, theirs, mine], 1, Some(2), Some(h), map[q := Entered, p := Flushed([p], 2)], map[], [q])
    else World([empty, theirs, mine], 2, None, Some(h), map[q := Entered, p := Entered], map[], [q, p])
  }

  function RaceEvent(p: nat, q: nat, k: nat): Event
  {
    if k == 0 then EnterUnlocked(p)
    else if k == 1 then Load(q)
    else if k == 2 then Load(p)
    else if k == 3 then OpenTemporary(q)
    else if k == 4 then Flush(q)
    else if k == 5 then Replace(q)
    else if k == 6 then OpenTemporary(p)
    else if k == 7 then Flush(p)
    else Replace(p)
  }

  lemma RaceBegins(under: Wrapping, h: nat, p: nat, q: nat, k: nat)
    requires p != q && k < 4
    ensures var w, e := Race(h, p, q, k), RaceEvent(p, q, k);
      Ranged(w) && Can(under, w, e) && Race(h, p, q, k + 1) == Do(under, w, e)
  {
    assert [Whole([])] + [Partial] == [Whole([]), Partial];
  }

  lemma RaceEnds(under: Wrapping, h: nat, p: nat, q: nat, k: nat)
    requires p != q && 4 <= k < 9
    ensures var w, e := Race(h, p, q, k), RaceEvent(p, q, k);
      Ranged(w) && Can(under, w, e) && Race(h, p, q, k + 1) == Do(under, w, e)
  {
    var w := Race(h, p, q, k);
    assert [] + [p] == [p] && [] + [q] == [q] && [q] + [p] == [q, p];
    match k
    case 4 => assert w.inodes[1 := Whole([q])] == Race(h, p, q, 5).inodes;
    case 6 => assert w.inodes + [Partial] == Race(h, p, q, 7).inodes;
    case 7 => assert w.inodes[2 := Whole([p])] == Race(h, p, q, 8).inodes;
    case _ =>
  }

  /** Some command takes the lock, by itself or beneath its wrapper. */
  lemma LockedGetsIn(under: Wrapping, unlocked: set<nat>, p: nat, q: nat)
    requires p != q
    ensures Reaches(under, unlocked, Race(under(q), p, q, 0))
  {
    hide Reaches;
    StartIsReached(under, unlocked);
    var w := Start();
    if under(q) != q {
      Further(under, unlocked, w, WrapperTakes(under(q)));
      w := Do(under, w, WrapperTakes(under(q)));
    }
    Further(under, unlocked, w, Enter(q));
    assert Do(under, w, Enter(q)) == Race(under(q), p, q, 0);
  }

  lemma {:induction false} RaceIsReached(under: Wrapping, unlocked: set<nat>, p: nat, q: nat, k: nat)
    requires p in unlocked && p != q && k <= 9
    ensures Reaches(under, unlocked, Race(under(q), p, q, k))
    decreases k
  {
    hide Reaches, Race, Do, Can, Ranged;
    if k == 0 {
      LockedGetsIn(under, unlocked, p, q);
    } else {
      RaceIsReached(under, unlocked, p, q, k - 1);
      if k <= 4 {
        RaceBegins(under, under(q), p, q, k - 1);
      } else {
        RaceEnds(under, under(q), p, q, k - 1);
      }
      Further(under, unlocked, Race(under(q), p, q, k - 1), RaceEvent(p, q, k - 1));
    }
  }

  /** The save of a command that holds the lock is gone after that of one that does not. */
  lemma OneUnlockedLosesAnUpdate(under: Wrapping, unlocked: set<nat>, p: nat, q: nat)
    requires p in unlocked && p != q
    ensures exists w :: Reaches(under, unlocked, w) && SavedAndLost(w, q) && !NothingLost(w)
  {
    hide Reaches;
    RaceIsReached(under, unlocked, p, q, 9);
    var w := Race(under(q), p, q, 9);
    assert w.inodes[w.live].content == [p] && [p] != [q, p];
    assert SavedAndLost(w, q) && !NothingLost(w);
  }
}
