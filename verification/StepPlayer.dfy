/** The step player of the demo page: a position, a play state and one browser timer. */
module StepPlayer {
  import opened Wrappers

  // ----- the player as a value -----

  /** `scheduled` says that a timer is pending. */
  datatype Player = Player(index: int, playing: bool, scheduled: bool, destroyed: bool)

  /** A step asked for by number; anything not finite counts as step 0. */
  datatype Target = NotFinite | Finite(r: real)

  datatype Event =
    | Play
    | Pause
    | Toggle
    | Next
    | Prev
    | GoTo(target: Target) // also Home and End
    | Hidden               // the tab is hidden
    | Fire                 // the pending timer fires
    | Destroy

  function Clamp(total: nat, t: Target): (i: int)
    requires total > 0
    ensures 0 <= i < total
  {
    match t
    case NotFinite => 0
    case Finite(r) =>
      var i := (r + 0.5).Floor;
      if i < 0 then 0 else if i > total - 1 then total - 1 else i
  }

  function Stopped(p: Player): Player {
    p.(playing := false, scheduled := false)
  }

  function Started(total: nat, p: Player): Player {
    Player(if p.index >= total - 1 then 0 else p.index, true, true, false)
  }

  /** What each event does. A timer fires only while one is pending. */
  function Step(total: nat, p: Player, e: Event): Player
    requires total > 0 && (e.Fire? ==> p.scheduled)
  {
    match e
    case Play => if p.destroyed || p.playing then p else Started(total, p)
    case Pause => if p.destroyed then p else Stopped(p)
    case Toggle => if p.destroyed then p else if p.playing then Stopped(p) else Started(total, p)
    case Next => if p.destroyed || p.index >= total - 1 then p else Stopped(p).(index := p.index + 1)
    case Prev => if p.destroyed || p.index <= 0 then p else Stopped(p).(index := p.index - 1)
    case GoTo(t) => if p.destroyed then Stopped(p) else Stopped(p).(index := Clamp(total, t))
    case Hidden => if p.playing && !p.destroyed then Stopped(p) else p
    case Fire =>
      if !p.playing || p.destroyed then p.(scheduled := false)
      else if p.index >= total - 1 then Stopped(p)
      else p.(index := p.index + 1)
    case Destroy => p.(destroyed := true, scheduled := false)
  }

  // ----- the code -----

  class StepPlayer {
    const total: nat
    var index: int
    var playing: bool
    var timer: Option<nat>
    var destroyed: bool

    // the browser's side: the timers set and neither fired nor cleared, and the next handle
    var outstanding: set<nat>
    var nextHandle: nat

    ghost predicate Valid()
      reads this
    {
      && total > 0
      && outstanding == (match timer case None => {} case Some(h) => {h})
      && (forall h :: h in outstanding ==> h < nextHandle)
    }

    ghost function State(): Player
      reads this
    {
      Player(index, playing, timer.Some?, destroyed)
    }

    constructor (total: nat, start: Target)
      requires total > 0
      ensures Valid() && this.total == total
      ensures State() == Player(Clamp(total, start), false, false, false)
    {
      this.total := total;
      index := Clamp(total, start);
      playing, timer, destroyed := false, None, false;
      outstanding, nextHandle := {}, 0;
    }

    method ClearTimer()
      requires Valid()
      modifies this`timer, this`outstanding
      ensures Valid() && timer == None
    {
      if timer.Some? {
        outstanding := outstanding - {timer.value};
        timer := None;
      }
    }

    method Schedule()
      requires Valid()
      modifies this`timer, this`outstanding, this`nextHandle
      ensures Valid() && timer.Some? == (playing && !destroyed)
    {
      ClearTimer();
      if !playing || destroyed { return; }
      timer := Some(nextHandle);
      outstanding := outstanding + {nextHandle};
      nextHandle := nextHandle + 1;
    }

    method StopClock()
      requires Valid()
      modifies this`playing, this`timer, this`outstanding
      ensures Valid() && !playing && timer == None
    {
      playing := false;
      ClearTimer();
    }

    method DoPlay()
      requires Valid()
      modifies this
      ensures Valid() && State() == Step(total, old(State()), Play)
    {
      if destroyed || playing { return; }
      if index >= total - 1 { index := 0; }
      playing := true;
      Schedule();
    }

    method DoPause()
      requires Valid()
      modifies this
      ensures Valid() && State() == Step(total, old(State()), Pause)
    {
      if destroyed { return; }
      StopClock();
    }

    method DoToggle()
      requires Valid()
      modifies this
      ensures Valid() && State() == Step(total, old(State()), Toggle)
    {
      if playing { DoPause(); } else { DoPlay(); }
    }

    /** goTo, with its own test for a step already shown and its rescheduling. */
    method MoveTo(t: Target, announce: bool)
      requires Valid()
      modifies this`index, this`timer, this`outstanding, this`nextHandle
      ensures Valid() && index == if destroyed then old(index) else Clamp(total, t)
      ensures timer.Some? ==
              if destroyed || (index == old(index) && !announce) || !playing then old(timer).Some? else true
    {
      if destroyed { return; }
      var next := Clamp(total, t);
      if next == index && !announce { return; }
      index := next;
      if playing { Schedule(); }
    }

    method DoNext()
      requires Valid() && 0 <= index < total
      modifies this
      ensures Valid() && State() == Step(total, old(State()), Next)
    {
      if destroyed || index >= total - 1 { return; }
      StopClock();
      MoveTo(Finite((index + 1) as real), true);
    }

    method DoPrev()
      requires Valid() && 0 <= index < total
      modifies this
      ensures Valid() && State() == Step(total, old(State()), Prev)
    {
      if destroyed || index <= 0 { return; }
      StopClock();
      MoveTo(Finite((index - 1) as real), true);
    }

    method DoGoTo(t: Target)
      requires Valid()
      modifies this
      ensures Valid() && State() == Step(total, old(State()), GoTo(t))
    {
      StopClock();
      MoveTo(t, true);
    }

    method DoHidden()
      requires Valid()
      modifies this
      ensures Valid() && State() == Step(total, old(State()), Hidden)
    {
      if playing && !destroyed { DoPause(); }
    }

    /** The browser runs the callback of the pending timer. */
    method DoFire(h: nat)
      requires Valid() && h in outstanding
      modifies this
      ensures Valid() && State() == Step(total, old(State()), Fire)
    {
      outstanding := outstanding - {h};
      timer := None;
      if !playing || destroyed { return; }
      if index >= total - 1 {
        DoPause();
        return;
      }
      index := index + 1;
      Schedule();
    }

    method DoDestroy()
      requires Valid()
      modifies this
      ensures Valid() && State() == Step(total, old(State()), Destroy)
    {
      destroyed := true;
      ClearTimer();
    }
  }

  // ----- every sequence of events -----

  /** In range, and a timer pending exactly while playing and not destroyed. */
  predicate Sound(total: nat, p: Player) {
    0 <= p.index < total && (p.scheduled <==> p.playing && !p.destroyed)
  }

  /** The events happen in order, timers firing only while pending. */
  predicate Plays(total: nat, p: Player, events: seq<Event>, q: Player)
    requires total > 0
    decreases |events|
  {
    if events == [] then p == q
    else (events[0].Fire? ==> p.scheduled) && Plays(total, Step(total, p, events[0]), events[1..], q)
  }

  lemma StepSound(total: nat, p: Player, e: Event)
    requires total > 0 && Sound(total, p) && (e.Fire? ==> p.scheduled)
    ensures Sound(total, Step(total, p, e))
    ensures e.Fire? ==> Step(total, p, e).index >= p.index
    ensures p.destroyed ==> Step(total, p, e).destroyed && Step(total, p, e).index == p.index
  {
  }

  /** Whatever the user does, from any start. */
  lemma {:induction false} AlwaysSound(total: nat, p: Player, events: seq<Event>, q: Player)
    requires total > 0 && Sound(total, p) && Plays(total, p, events, q)
    ensures Sound(total, q)
    ensures p.destroyed ==> q.destroyed && q.index == p.index && !q.scheduled
    decreases |events|
  {
    if events != [] {
      StepSound(total, p, events[0]);
      AlwaysSound(total, Step(total, p, events[0]), events[1..], q);
    }
  }

  // ----- what the user may rely on -----

  /** Rounding is to the nearest step, halves up, within the range. */
  lemma ClampNearest(total: nat, r: real)
    requires total > 0
    ensures r < 0.0 ==> Clamp(total, Finite(r)) == 0
    ensures r > (total - 1) as real ==> Clamp(total, Finite(r)) == total - 1
    ensures 0.0 <= r <= (total - 1) as real ==> -0.5 <= r - Clamp(total, Finite(r)) as real < 0.5
  {
  }

  /** Asking for a step in range shows it, and stops. */
  lemma GoToShows(total: nat, p: Player, i: int)
    requires 0 <= i < total && !p.destroyed
    ensures Step(total, p, GoTo(Finite(i as real))) == Player(i, false, false, false)
  {
  }

  /** Next and Prev go one step and stop, undo each other, and do nothing at all at their end. */
  lemma NextPrev(total: nat, p: Player)
    requires Sound(total, p) && !p.destroyed
    ensures p.index < total - 1 ==>
              && Step(total, p, Next) == Player(p.index + 1, false, false, false)
              && Step(total, Step(total, p, Next), Prev) == Player(p.index, false, false, false)
    ensures p.index > 0 ==>
              && Step(total, p, Prev) == Player(p.index - 1, false, false, false)
              && Step(total, Step(total, p, Prev), Next) == Player(p.index, false, false, false)
    ensures p.index == total - 1 ==> Step(total, p, Next) == p
    ensures p.index == 0 ==> Step(total, p, Prev) == p
  {
  }

  /**
   Play starts on the step shown, or from the first on the last one; Pause and a hidden tab
   stop on the step shown.
   */
  lemma PlayPause(total: nat, p: Player)
    requires Sound(total, p) && !p.destroyed
    ensures !p.playing ==>
              Step(total, p, Play) == Player(if p.index == total - 1 then 0 else p.index, true, true, false)
    ensures p.playing ==> Step(total, p, Play) == p
    ensures Step(total, p, Pause) == Step(total, p, Hidden) == Player(p.index, false, false, false)
    ensures Step(total, p, Toggle).playing == !p.playing
    ensures p.index < total - 1 ==> Step(total, Step(total, p, Toggle), Toggle) == p
  {
  }

  /** Once destroyed, nothing is shown or started any more. */
  lemma DestroyedForGood(total: nat, p: Player, e: Event)
    requires Sound(total, p) && (e.Fire? ==> p.scheduled)
    ensures var q := Step(total, p, Destroy); q.destroyed && !q.scheduled && q.index == p.index
    ensures p.destroyed ==>
              var q := Step(total, p, e); q.destroyed && !q.scheduled && q.index == p.index
  {
  }

  /** Firings, with nothing else happening, as many as the timer allows up to n. */
  function Unattended(total: nat, p: Player, n: nat): Player
    requires total > 0
    decreases n
  {
    if n == 0 || !p.scheduled then p else Unattended(total, Step(total, p, Fire), n - 1)
  }

  /**
   Left alone, playback is still running after fewer firings than steps left, and stops on the
   last step after exactly that many.
   */
  lemma {:induction false} AutoplayEnds(total: nat, p: Player, n: nat)
    requires total > 0 && Sound(total, p) && p.scheduled
    ensures n < total - p.index ==> Unattended(total, p, n) == p.(index := p.index + n)
    ensures n >= total - p.index ==> Unattended(total, p, n) == Stopped(p).(index := total - 1)
    decreases n
  {
    if n > 0 && p.index < total - 1 {
      AutoplayEnds(total, Step(total, p, Fire), n - 1);
    }
  }
}
