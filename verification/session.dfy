/// An interactive session: an input log that grows while frames are re-run from the start.
/// Requests are served one at a time; only a thread that removes idle sessions runs beside them.
module Session {
  import opened Options
  import opened Lockstep
  import opened Replay

  const MAX_EVENTS := 100000
  const MAX_COUNT := 100000

  /** What the server keeps of a session. */
  datatype State = State(curFrame: nat, events: seq<Event>, fb: Option<Frame>, audio: seq<int>)

  datatype Reply = Ok | BadRequest | NotFound | Failed

  const FRESH := State(0, [], None, [])

  // ------------------------------------------------------------------ the oracle

  /** Boot frames are run here without draining their sound. */
  function Warmed<S>(e: Emulator<S>, s: S, k: nat): S { if k == 0 then s else e.runFrame(Warmed(e, s, k - 1)) }

  function Loaded<S>(e: Emulator<S>, s: S): S { Warmed(e, s, e.bootFrames(s)) }

  function Held(events: seq<Event>): nat -> nat { frame => KeysFrom(events, frame, 0) }

  /** All sound of the first `n` frames. */
  function Sound<S>(e: Emulator<S>, s: S, keys: nat -> nat, n: nat): seq<int> {
    if n == 0 then [] else Sound(e, s, keys, n - 1) + Heard(e, s, keys, n - 1)
  }

  /** Run `n` frames from power-on with the log in `text`: the last picture and all sound. */
  method OracleRun<S>(e: Emulator<S>, s: S, n: nat, text: string)
    returns (fb: Option<Frame>, audio: seq<int>, es: seq<Event>)
    ensures Sorted(es) && multiset(es) == multiset(ParseLines(SplitLines(text)))
    ensures audio == Sound(e, Loaded(e, s), Held(es), n)
    ensures fb == if n == 0 then None else Some(Shown(e, Loaded(e, s), Held(es), n - 1))
  {
    es := FromText(text);
    var s' := s;
    for i := 0 to e.bootFrames(s)
      invariant s' == Warmed(e, s, i)
    {
      s' := e.runFrame(s');
    }
    ghost var s0 := s';
    audio := [];
    fb := None;
    for frame := 0 to n
      invariant s' == After(e, s0, Held(es), frame) && audio == Sound(e, s0, Held(es), frame)
      invariant fb == if frame == 0 then None else Some(Shown(e, s0, Held(es), frame - 1))
    {
      var keys := KeysAt(es, frame);
      s' := e.setKeys(s', keys);
      s' := e.runFrame(s');
      fb := Some(e.framebuffer(s'));
      var (samples, drained) := e.drainAudio(s');
      s' := drained;
      audio := audio + samples;
    }
  }

  // ------------------------------------------------------------------ the session operations

  function Noted(events: seq<Event>, frame: nat, keys: nat): seq<Event> {
    if events != [] && events[|events| - 1].frame == frame then events[..|events| - 1] + [Event(frame, keys)]
    else events + [Event(frame, keys)]
  }

  predicate BadKeys(keys: int) { keys < 0 || keys >= MAX_KEYS }

  predicate BadCount(count: int) { count < 1 || count > MAX_COUNT }

  function WithKeys(s: State, keys: int): (Reply, State) {
    if BadKeys(keys) || |s.events| >= MAX_EVENTS then (BadRequest, s)
    else (Ok, s.(events := Noted(s.events, s.curFrame, keys)))
  }

  /** Frames are run only if the frame number fits the oracle's 32 bits; the subprocess may
      also fail, and then nothing changes. */
  function WithFrames<S>(e: Emulator<S>, boot: S, s: State, count: int, works: bool): (Reply, State) {
    if BadCount(count) then (BadRequest, s)
    else
      var n := s.curFrame + count;
      if !works || n >= MAX_FRAME then (Failed, s)
      else
        (Ok, State(n, s.events, Some(Shown(e, Loaded(e, boot), Held(s.events), n - 1)),
                   Sound(e, Loaded(e, boot), Held(s.events), n)))
  }

  function ReadAudio(s: State): (seq<int>, State) { (s.audio, s.(audio := [])) }

  /** The log increases strictly in frame and never runs ahead of the session. */
  predicate Valid(s: State) {
    Increasing(s.events) && Fits(s.events) && forall i :: 0 <= i < |s.events| ==> s.events[i].frame <= s.curFrame
  }

  /** The log that the oracle reads is the session's own. */
  lemma LogReadBack(log: seq<Event>, es: seq<Event>)
    requires Increasing(log) && Fits(log) && forall i :: 0 <= i < |log| ==> log[i].frame < MAX_FRAME
    requires Sorted(es) && multiset(es) == multiset(ParseLines(SplitLines(Print(log))))
    ensures es == log
  {
    RoundTrip(log, es);
    hide Sorted, Print, SplitLines, ParseLines;
  }

  // ------------------------------------------------------------------ stepping one emulator instead

  /** One emulator that is kept running: `sound` is all it has played, of which `since` came
      after the sound was last read and `before` not. */
  datatype Live<S> = Live(state: S, keys: nat, fb: Option<Frame>, sound: seq<int>, before: seq<int>, since: seq<int>,
                          unread: seq<int>)

  function Played<S>(e: Emulator<S>, l: Live<S>, count: nat): Live<S> {
    if count == 0 then l
    else
      var p := Played(e, l, count - 1);
      var ran := e.runFrame(e.setKeys(p.state, p.keys));
      var (samples, state) := e.drainAudio(ran);
      p.(state := state, fb := Some(e.framebuffer(ran)), sound := p.sound + samples, since := p.since + samples)
  }

  /** Set keys, run frames, read the sound, or look at the picture. */
  datatype Op = Press(keys: int) | Advance(count: int, works: bool) | Listen | Look

  function Step<S>(e: Emulator<S>, boot: S, s: State, op: Op): (Reply, State) {
    match op
    case Press(keys) => WithKeys(s, keys)
    case Advance(count, works) => WithFrames(e, boot, s, count, works)
    case Listen => (Ok, ReadAudio(s).1)
    case Look => (Ok, s)
  }

  /** What an accepted request does to the running emulator. */
  function LiveStep<S>(e: Emulator<S>, l: Live<S>, op: Op): Live<S> {
    match op
    case Press(keys) => if keys < 0 then l else l.(keys := keys)
    case Advance(count, _) => if count < 0 then l else var p := Played(e, l, count); p.(unread := p.sound)
    case Listen => l.(before := l.sound, since := [], unread := [])
    case Look => l
  }

  /** The session and the running emulator after a history of requests, of which only the
      accepted ones reach the emulator. */
  function History<S>(e: Emulator<S>, boot: S, ops: seq<Op>): (State, Live<S>)
    decreases |ops|
  {
    if ops == [] then (FRESH, Live(Loaded(e, boot), 0, None, [], [], [], []))
    else
      var (s, l) := History(e, boot, ops[..|ops| - 1]);
      var op := ops[|ops| - 1];
      var (reply, s') := Step(e, boot, s, op);
      (s', if reply == Ok then LiveStep(e, l, op) else l)
  }

  function Latest(events: seq<Event>): nat { if events == [] then 0 else events[|events| - 1].keys }

  ghost predicate Tracks<S>(e: Emulator<S>, boot: S, s: State, l: Live<S>) {
    var keys := Held(s.events);
    && Valid(s) && l.keys == Latest(s.events) && l.fb == s.fb && l.unread == s.audio
    && l.sound == l.before + l.since
    && l.state == After(e, Loaded(e, boot), keys, s.curFrame) && l.sound == Sound(e, Loaded(e, boot), keys, s.curFrame)
  }

  /** From the session's frame on the keys of the latest event are held. */
  lemma HeldLatest(s: State, frame: nat)
    requires Valid(s) && frame >= s.curFrame
    ensures Held(s.events)(frame) == Latest(s.events)
  {
    if s.events != [] { KeysFromIs(s.events, frame, 0, |s.events| - 1); }
  }

  lemma NotedKeeps(s: State, keys: nat)
    requires Valid(s) && keys < MAX_KEYS
    ensures Valid(s.(events := Noted(s.events, s.curFrame, keys))) && Latest(Noted(s.events, s.curFrame, keys)) == keys
  {
  }

  /** A new event changes nothing before the session's frame. */
  lemma NotedPast(s: State, keys: nat, frame: nat)
    requires Valid(s) && frame < s.curFrame
    ensures Held(Noted(s.events, s.curFrame, keys))(frame) == Held(s.events)(frame)
  {
    var e := Event(s.curFrame, keys);
    if s.events != [] && s.events[|s.events| - 1].frame == s.curFrame {
      var init, last := s.events[..|s.events| - 1], s.events[|s.events| - 1];
      assert s.events == init + [last];
      KeysAppend(init, last, frame, 0);
      KeysAppend(init, e, frame, 0);
    } else {
      KeysAppend(s.events, e, frame, 0);
    }
  }

  /** States and sound depend only on the keys of the frames run. */
  lemma {:induction false} PastDecides<S>(e: Emulator<S>, s: S, keys1: nat -> nat, keys2: nat -> nat, n: nat)
    requires forall f: nat :: f < n ==> keys1(f) == keys2(f)
    ensures After(e, s, keys1, n) == After(e, s, keys2, n) && Sound(e, s, keys1, n) == Sound(e, s, keys2, n)
  {
    if n > 0 {
      PastDecides(e, s, keys1, keys2, n - 1);
      assert keys1(n - 1) == keys2(n - 1);
    }
  }

  /** Playing on with unchanged keys is what a longer re-run does at its end. */
  lemma {:induction false} PlayedIsRerun<S>(e: Emulator<S>, boot: S, s: State, l: Live<S>, count: nat)
    requires Tracks(e, boot, s, l)
    ensures var p := Played(e, l, count);
            var keys, n := Held(s.events), s.curFrame + count;
            && p.keys == l.keys && p.unread == l.unread && p.before == l.before && p.sound == p.before + p.since
            && p.state == After(e, Loaded(e, boot), keys, n) && p.sound == Sound(e, Loaded(e, boot), keys, n)
            && p.fb == if count == 0 then l.fb else Some(Shown(e, Loaded(e, boot), keys, n - 1))
  {
    if count > 0 {
      PlayedIsRerun(e, boot, s, l, count - 1);
      HeldLatest(s, s.curFrame + count - 1);
      hide Held, Loaded, Valid, Latest;
    }
  }

  /** Every request keeps the session in step with the running emulator. */
  lemma StepTracks<S>(e: Emulator<S>, boot: S, s: State, l: Live<S>, op: Op)
    requires Tracks(e, boot, s, l)
    ensures var (reply, s') := Step(e, boot, s, op);
            Tracks(e, boot, s', if reply == Ok then LiveStep(e, l, op) else l)
  {
    match op
    case Press(keys) =>
      hide Tracks, WithKeys;
      if WithKeys(s, keys).0 == Ok {
        PressTracks(e, boot, s, l, keys);
      } else {
        RefusedKeys(s, keys);
      }
    case Advance(count, works) =>
      AdvanceTracks(e, boot, s, l, count, works);
      hide *;
    case Listen =>
      hide Held, Loaded, Latest, Valid;
    case Look =>
  }

  lemma RefusedKeys(s: State, keys: int)
    ensures WithKeys(s, keys).0 != Ok ==> WithKeys(s, keys).1 == s
    ensures WithKeys(s, keys).0 == Ok ==> 0 <= keys
  {
  }

  lemma AdvanceTracks<S>(e: Emulator<S>, boot: S, s: State, l: Live<S>, count: int, works: bool)
    requires Tracks(e, boot, s, l)
    ensures var (reply, s') := Step(e, boot, s, Advance(count, works));
            Tracks(e, boot, s', if reply == Ok then LiveStep(e, l, Advance(count, works)) else l)
  {
    if WithFrames(e, boot, s, count, works).0 == Ok {
      PlayedIsRerun(e, boot, s, l, count);
    }
    hide Held, Loaded, Latest;
  }

  lemma PressTracks<S>(e: Emulator<S>, boot: S, s: State, l: Live<S>, keys: int)
    requires Tracks(e, boot, s, l) && WithKeys(s, keys).0 == Ok
    ensures Tracks(e, boot, WithKeys(s, keys).1, l.(keys := keys))
  {
    var noted := Noted(s.events, s.curFrame, keys);
    NotedKeeps(s, keys);
    forall f: nat | f < s.curFrame
      ensures Held(noted)(f) == Held(s.events)(f)
    {
      NotedPast(s, keys, f);
    }
    PastDecides(e, Loaded(e, boot), Held(noted), Held(s.events), s.curFrame);
    hide Held, Loaded, Latest, Noted, Valid;
  }

  /** After any history of requests: the log is valid, the picture kept by re-running from
      power-on is the one a single running emulator would show, and the sound kept is all
      that it would have played since frame 0, until it is read. */
  lemma {:induction false} RerunMatchesLive<S>(e: Emulator<S>, boot: S, ops: seq<Op>)
    ensures var (s, l) := History(e, boot, ops);
            Valid(s) && s.fb == l.fb && s.audio == l.unread && Tracks(e, boot, s, l)
    decreases |ops|
  {
    if ops != [] {
      var init := ops[..|ops| - 1];
      RerunMatchesLive(e, boot, init);
      var (s, l) := History(e, boot, init);
      StepTracks(e, boot, s, l, ops[|ops| - 1]);
      hide Tracks, Valid, Step, LiveStep;
    }
  }

  /** Which requests are refused, and that a refused one changes nothing. */
  lemma Refusals<S>(e: Emulator<S>, boot: S, s: State, op: Op)
    ensures var (reply, s') := Step(e, boot, s, op);
            && (op.Press? ==> reply == if 0 <= op.keys <= 0xFFFF && |s.events| < 100000 then Ok else BadRequest)
            && (op.Advance? ==> reply == if op.count < 1 || op.count > 100000 then BadRequest
                                         else if !op.works || s.curFrame + op.count > 0xFFFF_FFFF then Failed else Ok)
            && (op.Listen? || op.Look? ==> reply == Ok)
            && (reply != Ok ==> s' == s)
  {
    hide Noted, Shown, Sound, Held, Loaded;
  }

  // ------------------------------------------------------------------ sound since the last read

  /** After frames have been run the sound kept is all since frame 0: it is the sound since
      the last read exactly if nothing had been played before that. */
  lemma AudioSinceRead<S>(e: Emulator<S>, boot: S, ops: seq<Op>)
    requires ops != [] && ops[|ops| - 1].Advance?
    requires Step(e, boot, History(e, boot, ops[..|ops| - 1]).0, ops[|ops| - 1]).0 == Ok
    ensures var (s, l) := History(e, boot, ops);
            s.audio == l.before + l.since && (s.audio == l.since <==> l.before == [])
  {
    var (s0, l0) := History(e, boot, ops[..|ops| - 1]);
    RerunMatchesLive(e, boot, ops[..|ops| - 1]);
    RerunMatchesLive(e, boot, ops);
    var (s, l) := History(e, boot, ops);
    assert l.unread == l.sound;
    assert s.audio == l.since ==> |l.before + l.since| == |l.since|;
  }

  /** Sounds the keys held in each frame. */
  function Echo(): Emulator<nat> {
    Emulator((s: nat, keys: nat) => keys, (s: nat) => s, (s: nat) => Black(), (s: nat) => ([s], s), (s: nat) => 1,
             (s: nat) => 0)
  }

  /** Run a frame, read the sound, run another: the first frame's sound is given again. */
  lemma SoundReadTwice()
    ensures var (s, l) := History(Echo(), 0, [Advance(1, true), Listen, Advance(1, true)]);
            s.audio == [0, 0] && l.since == [0]
  {
    var e := Echo();
    var one, two, three := [Advance(1, true)], [Advance(1, true), Listen], [Advance(1, true), Listen, Advance(1, true)];
    assert three[..2] == two && two[..1] == one && one[..0] == [];
    assert Loaded(e, 0) == 0;
    EchoSounds(Held([]), 1);
    EchoSounds(Held([]), 2);
    var (s0, l0) := History(e, 0, []);
    var (s1, l1) := History(e, 0, one);
    assert l1.sound == [0] && l1.state == 0 && s1.curFrame == 1 && s1.events == [];
    var (s2, l2) := History(e, 0, two);
    assert l2.before == [0] && l2.since == [];
    var (s3, l3) := History(e, 0, three);
    assert s3.audio == Sound(e, 0, Held([]), 2);
    assert Played(e, l2, 1).since == [0];
  }

  lemma {:induction false} EchoSounds(keys: nat -> nat, n: nat)
    ensures Sound(Echo(), 0, keys, n) == seq(n, i requires 0 <= i < n => keys(i))
  {
    if n > 0 { EchoSounds(keys, n - 1); }
  }

  // ------------------------------------------------------------------ idle sessions

  /** A session in the server's table, with the time of its last activity. */
  datatype Entry = Entry(state: State, last: real)

  /** Sessions idle for longer, in seconds, are removed. */
  const IDLE_TTL := 1800.0

  /** One pass of the thread that removes idle sessions. */
  function Reaped(x: Option<Entry>, at: real): Option<Entry> {
    if x.Some? && x.value.last < at - IDLE_TTL then None else x
  }

  function ReapedAll(x: Option<Entry>, passes: seq<real>): Option<Entry>
    decreases |passes|
  {
    if passes == [] then x else Reaped(ReapedAll(x, passes[..|passes| - 1]), passes[|passes| - 1])
  }

  /** A request served from `start` to `end`.  Arguments are checked before the session is
      looked up.  Reading and looking remove idle sessions first.  While the subprocess runs the
      table is unlocked, and `passes` of the removing thread fall in that time; a session
      they remove is not found at the end of its run. */
  function Answered<S>(e: Emulator<S>, boot: S, x: Option<Entry>, op: Op, start: real, end: real, passes: seq<real>)
    : (Reply, Option<Entry>)
  {
    match op
    case Press(keys) =>
      if BadKeys(keys) then (BadRequest, x)
      else if x.None? then (NotFound, x)
      else
        var (reply, s) := WithKeys(x.value.state, keys);
        (reply, if reply == Ok then Some(Entry(s, start)) else x)
    case Listen =>
      var y := Reaped(x, start);
      if y.None? then (NotFound, y) else (Ok, Some(Entry(ReadAudio(y.value.state).1, start)))
    case Look =>
      var y := Reaped(x, start);
      if y.None? then (NotFound, y) else (Ok, Some(y.value.(last := start)))
    case Advance(count, works) =>
      if BadCount(count) then (BadRequest, x)
      else if x.None? then (NotFound, x)
      else
        var (reply, s) := WithFrames(e, boot, x.value.state, count, works);
        var y := ReapedAll(x, passes);
        if reply != Ok then (reply, y) else if y.None? then (NotFound, y) else (Ok, Some(Entry(s, end)))
  }

  /** What happens to a session: a pass of the removing thread, its deletion, or a request. */
  datatype Act = Reap(at: real) | Close | Request(op: Op, start: real, end: real, passes: seq<real>)

  /** The entry of a session opened at `born` after `acts`, and the requests that were accepted. */
  function Timeline<S>(e: Emulator<S>, boot: S, born: real, acts: seq<Act>): (Option<Entry>, seq<Op>)
    decreases |acts|
  {
    if acts == [] then (Some(Entry(FRESH, born)), [])
    else
      var (x, ops) := Timeline(e, boot, born, acts[..|acts| - 1]);
      match acts[|acts| - 1]
      case Reap(at) => (Reaped(x, at), ops)
      case Close => (None, ops)
      case Request(op, start, end, passes) =>
        var (reply, y) := Answered(e, boot, x, op, start, end, passes);
        (y, if reply == Ok then ops + [op] else ops)
  }

  lemma {:induction false} ReapedAllIs(x: Option<Entry>, passes: seq<real>)
    ensures ReapedAll(x, passes).None? <==>
              x.None? || exists i :: 0 <= i < |passes| && x.value.last < passes[i] - IDLE_TTL
    ensures ReapedAll(x, passes).Some? ==> ReapedAll(x, passes) == x
    decreases |passes|
  {
    if passes != [] {
      var init := passes[..|passes| - 1];
      ReapedAllIs(x, init);
      assert forall i :: 0 <= i < |init| ==> init[i] == passes[i];
      assert ReapedAll(x, init).None? && x.Some? ==>
          exists i :: 0 <= i < |init| && x.value.last < init[i] - IDLE_TTL && init[i] == passes[i];
    }
  }

  /** An answer is the session's own where the session is found, and an accepted one that of
      a session that was there. */
  lemma AnsweredIsStep<S>(e: Emulator<S>, boot: S, x: Option<Entry>, op: Op, start: real, end: real, passes: seq<real>)
    ensures var (reply, y) := Answered(e, boot, x, op, start, end, passes);
            && (reply == Ok ==> x.Some? && y.Some? && (Ok, y.value.state) == Step(e, boot, x.value.state, op))
            && (reply != Ok && y.Some? ==> y == x)
            && (x.None? ==> y.None? && reply != Ok)
            && (reply == BadRequest || reply == Failed ==> x.None? || reply == Step(e, boot, x.value.state, op).0)
  {
    if op.Advance? { ReapedAllIs(x, passes); }
  }

  /** Whatever is removed when: as long as the session is there it is what the accepted
      requests make of it, so that its log is valid and its picture and sound are those of one
      running emulator. */
  lemma {:induction false} TimelineIsHistory<S>(e: Emulator<S>, boot: S, born: real, acts: seq<Act>)
    ensures var (x, ops) := Timeline(e, boot, born, acts);
            x.Some? ==>
              var (s, l) := History(e, boot, ops);
              x.value.state == s && Valid(s) && s.fb == l.fb && s.audio == l.unread
    decreases |acts|
  {
    RerunMatchesLive(e, boot, Timeline(e, boot, born, acts).1);
    if acts != [] {
      var init, act := acts[..|acts| - 1], acts[|acts| - 1];
      TimelineIsHistory(e, boot, born, init);
      var (x, ops) := Timeline(e, boot, born, init);
      hide Step, Answered, LiveStep, Valid, Tracks;
      if act.Request? {
        AnsweredIsStep(e, boot, x, act.op, act.start, act.end, act.passes);
        assert (ops + [act.op])[..|ops|] == ops;
      }
    }
  }

  /** A run that works is not found at its end exactly if some pass during it came more than
      the idle time after the activity before it; otherwise it is kept. */
  lemma VanishesIff<S>(e: Emulator<S>, boot: S, x: Entry, count: int, start: real, end: real, passes: seq<real>)
    requires WithFrames(e, boot, x.state, count, true).0 == Ok
    ensures var (reply, y) := Answered(e, boot, Some(x), Advance(count, true), start, end, passes);
            && (reply == NotFound <==> exists i :: 0 <= i < |passes| && passes[i] > x.last + IDLE_TTL)
            && (reply == NotFound <==> y.None?)
            && (reply == Ok <==> y == Some(Entry(WithFrames(e, boot, x.state, count, true).1, end)))
  {
    ReapedAllIs(Some(x), passes);
    hide Shown, Sound, Held, Loaded;
  }

  predicate During(passes: seq<real>, start: real, end: real) {
    forall i :: 0 <= i < |passes| ==> start <= passes[i] <= end
  }

  /** So a run is safe from removal, whenever the passes come, exactly if it ends within the
      idle time of the activity before it. */
  lemma SafeIff<S>(e: Emulator<S>, boot: S, x: Entry, count: int, start: real, end: real)
    requires WithFrames(e, boot, x.state, count, true).0 == Ok && start <= end
    ensures (forall passes :: During(passes, start, end) ==>
               Answered(e, boot, Some(x), Advance(count, true), start, end, passes).0 == Ok)
            <==> end <= x.last + IDLE_TTL
  {
    forall passes | During(passes, start, end)
      ensures end <= x.last + IDLE_TTL ==> Answered(e, boot, Some(x), Advance(count, true), start, end, passes).0 == Ok
    {
      VanishesIff(e, boot, x, count, start, end, passes);
    }
    if end > x.last + IDLE_TTL {
      VanishesIff(e, boot, x, count, start, end, [end]);
      assert During([end], start, end) && [end][0] > x.last + IDLE_TTL;
    }
    hide Answered;
  }

  lemma PrintStep(es: seq<Event>, i: nat, text: string)
    requires i < |es|
    ensures text + Print(es[i..]) == (text + PrintEvent(es[i])) + Print(es[i + 1..])
  {
    hide PrintEvent;
    assert es[i..][1..] == es[i + 1..];
  }

  class Server<S> {
    const emulator: Emulator<S>
    const boot: S
    var curFrame: nat
    var events: seq<Event>
    var lastFb: Option<Frame>
    var lastAudio: seq<int>
    var lastActivity: real
    var present: bool

    constructor (emulator: Emulator<S>, boot: S, now: real)
      ensures this.emulator == emulator && this.boot == boot && Kept() == Some(Entry(FRESH, now))
    {
      this.emulator := emulator;
      this.boot := boot;
      curFrame := 0;
      events := [];
      lastFb := None;
      lastAudio := [];
      lastActivity := now;
      present := true;
    }

    function Contents(): State
      reads this
    {
      State(curFrame, events, lastFb, lastAudio)
    }

    /** The session's entry in the table. */
    function Kept(): Option<Entry>
      reads this
    {
      if present then Some(Entry(Contents(), lastActivity)) else None
    }

    method ReapIdle(now: real)
      modifies this`present
      ensures Kept() == Reaped(old(Kept()), now)
    {
      if lastActivity < now - 1800.0 {
        present := false;
      }
    }

    method SetKeys(keys: int, now: real) returns (reply: Reply)
      modifies this`events, this`lastActivity
      ensures (reply, Kept()) == Answered(emulator, boot, old(Kept()), Press(keys), now, now, [])
    {
      if keys < 0 || keys > 0xFFFF {
        return BadRequest;
      }
      if !present {
        return NotFound;
      }
      if |events| >= MAX_EVENTS {
        return BadRequest;
      }
      if events != [] && events[|events| - 1].frame == curFrame {
        events := events[..|events| - 1] + [Event(curFrame, keys)];
      } else {
        events := events + [Event(curFrame, keys)];
      }
      lastActivity := now;
      reply := Ok;
    }

    method WriteReplay() returns (text: string)
      ensures text == Print(events)
    {
      text := "";
      for i := 0 to |events|
        invariant text + Print(events[i..]) == Print(events)
      {
        hide PrintEvent;
        PrintStep(events, i, text);
        text := text + PrintEvent(events[i]);
      }
    }

    /** Writes the log and re-runs everything from power-on while the table is unlocked and
        `passes` of the removing thread come by; then keeps the last picture and the sound. */
    method RunFrames(count: int, works: bool, start: real, end: real, passes: seq<real>) returns (reply: Reply)
      requires Valid(Contents())
      modifies this`curFrame, this`lastFb, this`lastAudio, this`lastActivity, this`present
      ensures (reply, Kept()) == Answered(emulator, boot, old(Kept()), Advance(count, works), start, end, passes)
    {
      hide Print, SplitLines, ParseLines, Sound, Shown, Held, Loaded, Sorted, Increasing, Fits;
      if count < 1 || count > 100000 {
        return BadRequest;
      }
      if !present {
        return NotFound;
      }
      ghost var x := Kept();
      var newCur := curFrame + count;
      var text := WriteReplay();
      for i := 0 to |passes|
        invariant Kept() == ReapedAll(x, passes[..i])
      {
        assert passes[..i + 1][..i] == passes[..i];
        ReapIdle(passes[i]);
      }
      assert passes[..|passes|] == passes;
      if !works || newCur >= MAX_FRAME {
        return Failed;
      }
      var fb, audio, es := OracleRun(emulator, boot, newCur, text);
      LogReadBack(events, es);
      if !present {
        return NotFound;
      }
      curFrame := newCur;
      lastFb := fb;
      lastAudio := audio;
      lastActivity := end;
      reply := Ok;
    }

    method Framebuffer(now: real) returns (reply: Reply, fb: Option<Frame>)
      modifies this`lastActivity, this`present
      ensures (reply, Kept()) == Answered(emulator, boot, old(Kept()), Look, now, now, [])
      ensures reply == Ok ==> fb == lastFb
    {
      ReapIdle(now);
      if !present {
        return NotFound, None;
      }
      lastActivity := now;
      reply, fb := Ok, lastFb;
    }

    method Audio(now: real) returns (reply: Reply, samples: seq<int>)
      modifies this`lastAudio, this`lastActivity, this`present
      ensures (reply, Kept()) == Answered(emulator, boot, old(Kept()), Listen, now, now, [])
      ensures reply == Ok ==> samples == old(lastAudio)
    {
      ReapIdle(now);
      if !present {
        return NotFound, [];
      }
      lastActivity := now;
      samples := lastAudio;
      lastAudio := [];
      reply := Ok;
    }
  }
}
