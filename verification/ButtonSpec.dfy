/**
 The stage machine of one flexible button: what each scan does to it and which events
 it reports, over any length of press. Counters have 16 bits.
 */
module ButtonSpec {

  const COUNTER_MAX: nat := 0xFFFF

  datatype Event = PressDown | Click | DoubleClick | RepeatClick | ShortStart | ShortUp | LongStart | LongUp
                 | LongHold | LongHoldUp | NoEvent

  datatype Stage = Default | Down | MultipleClick

  datatype Button = Button(stage: Stage, event: Event, scan: nat, clicks: nat,
                           interval: nat, short: nat, long: nat, hold: nat)

  /** The thresholds in order, as settings of 16 bits. */
  predicate Rising(b: Button) {
    0 < b.short < b.long < b.hold <= COUNTER_MAX
  }

  /** With room for the counter above the last one. */
  predicate Ordered(b: Button) {
    Rising(b) && b.hold < COUNTER_MAX
  }

  /** Incremented in every scan outside the default stage; before it wraps, back to the hold threshold. */
  function Counted(b: Button): (b': Button) {
    if b.stage.Default? then b
    else
      var next := (b.scan + 1) % (COUNTER_MAX + 1);
      b.(scan := if next >= COUNTER_MAX then b.hold else next)
  }

  function ClickEvent(clicks: nat): Event {
    if clicks == 0 then PressDown else if clicks == 1 then Click else if clicks == 2 then DoubleClick else RepeatClick
  }

  /** An event is stored and reported. */
  function Report(b: Button, e: Event): (r: (Button, seq<Event>)) {
    (b.(event := e), [e])
  }

  function Held(b: Button): (r: (Button, seq<Event>)) {
    if b.clicks > 0 then
      if b.scan > b.interval then (b.(event := ClickEvent(b.clicks), scan := 0, clicks := 0), [ClickEvent(b.clicks)])
      else (b, [])
    else if b.scan >= b.hold then (if b.event == LongHold then (b, []) else Report(b, LongHold))
    else if b.scan >= b.long then (if b.event == LongStart then (b, []) else Report(b, LongStart))
    else if b.scan >= b.short then (if b.event == ShortStart then (b, []) else Report(b, ShortStart))
    else (b, [])
  }

  function Released(b: Button): (r: (Button, seq<Event>)) {
    if b.scan >= b.hold then Report(b.(stage := Default), LongHoldUp)
    else if b.scan >= b.long then Report(b.(stage := Default), LongUp)
    else if b.scan >= b.short then Report(b.(stage := Default), ShortUp)
    else (b.(stage := MultipleClick, clicks := (b.clicks + 1) % (COUNTER_MAX + 1)), [])
  }

  /** One scan of one button. */
  function Scanned(b: Button, pressed: bool): (r: (Button, seq<Event>)) {
    var c := Counted(b);
    match c.stage
    case Default =>
      if pressed then Report(c.(scan := 0, clicks := 0, stage := Down), PressDown) else (c.(event := NoEvent), [])
    case Down => if pressed then Held(c) else Released(c)
    case MultipleClick =>
      if pressed then (c.(stage := Down, scan := 0), [])
      else if c.scan > c.interval then Report(c.(stage := Default), ClickEvent(c.clicks))
      else (c, [])
  }

  /** Several scans, with all events reported on the way. */
  function Scans(b: Button, pressed: seq<bool>): (r: (Button, seq<Event>)) {
    if pressed == [] then (b, [])
    else
      var last := |pressed| - 1;
      var before := Scans(b, pressed[..last]);
      var one := Scanned(before.0, pressed[last]);
      (one.0, before.1 + one.1)
  }

  function Times(n: nat, pressed: bool): (s: seq<bool>)
    ensures |s| == n
  {
    seq(n, i => pressed)
  }

  // ----- one long press -----

  /** The counter never falls behind a threshold again: it passes for the length of the press. */
  predicate CountsTo(b: Button, n: nat) {
    && b.scan <= COUNTER_MAX && (b.hold < COUNTER_MAX ==> b.scan < COUNTER_MAX)
    && (n < COUNTER_MAX ==> b.scan == n) && (n >= COUNTER_MAX ==> b.scan >= b.hold)
  }

  function StartedBy(b: Button, n: nat): Event {
    if n >= b.hold then LongHold else if n >= b.long then LongStart else if n >= b.short then ShortStart else PressDown
  }

  /** What a press reports while it lasts: each start event once, in this order. */
  function Progress(b: Button, n: nat): (es: seq<Event>) {
    [PressDown] + (if n >= b.short then [ShortStart] else []) + (if n >= b.long then [LongStart] else [])
    + (if n >= b.hold then [LongHold] else [])
  }

  /** The event of a release after a press of `n` scans, if it reports one. */
  function UpEvent(b: Button, n: nat): seq<Event> {
    if n >= b.hold then [LongHoldUp] else if n >= b.long then [LongUp] else if n >= b.short then [ShortUp] else []
  }

  lemma TimesMore(n: nat, pressed: bool)
    ensures Times(n + 1, pressed)[..n] == Times(n, pressed) && Times(n + 1, pressed)[n] == pressed
  {
  }

  /** The first scan of a press and the `n` that follow while the button stays down. */
  function Pressed(b: Button, n: nat): (Button, seq<Event>) {
    Scans(b, Times(n + 1, true))
  }

  predicate SameSettings(a: Button, b: Button) {
    a.interval == b.interval && a.short == b.short && a.long == b.long && a.hold == b.hold
  }

  lemma CountGoesOn(b: Button, n: nat)
    requires Rising(b) && b.stage.Down? && CountsTo(b, n) && (b.hold < COUNTER_MAX || n < COUNTER_MAX)
    ensures CountsTo(Counted(b), n + 1)
    ensures var c := Counted(b);
            && (c.scan >= b.hold <==> n + 1 >= b.hold) && (c.scan >= b.long <==> n + 1 >= b.long)
            && (c.scan >= b.short <==> n + 1 >= b.short)
  {
  }

  /** What scan `n` of a press adds to its events. */
  function Crossed(b: Button, n: nat): seq<Event> {
    if n == b.hold then [LongHold] else if n == b.long then [LongStart] else if n == b.short then [ShortStart] else []
  }

  lemma ProgressGrows(b: Button, n: nat)
    requires Rising(b) && n > 0
    ensures Progress(b, n) == Progress(b, n - 1) + Crossed(b, n)
  {
  }

  /** Where a press stands after `n` scans of holding. */
  predicate Holding(b: Button, start: Button, n: nat) {
    && b.stage.Down? && b.clicks == 0 && SameSettings(b, start) && b.event == StartedBy(start, n) && CountsTo(b, n)
  }

  lemma HoldStep(b: Button, start: Button, n: nat)
    requires Rising(start) && n > 0 && Holding(b, start, n - 1) && (start.hold < COUNTER_MAX || n <= COUNTER_MAX)
    ensures var one := Scanned(b, true); Holding(one.0, start, n) && one.1 == Crossed(start, n)
  {
    CountGoesOn(b, n - 1);
  }

  /** A fresh press held for any number of scans, even past the range of the counter. */
  lemma {:induction false} LongPress(b: Button, n: nat)
    requires Rising(b) && b.stage.Default? && (b.hold < COUNTER_MAX || n <= COUNTER_MAX)
    ensures var r := Pressed(b, n); r.1 == Progress(b, n) && Holding(r.0, b, n)
  {
    if n == 0 {
      PressBegins(b);
    } else {
      LongPress(b, n - 1);
      PressGoesOn(b, n);
    }
  }

  lemma PressBegins(b: Button)
    requires Rising(b) && b.stage.Default?
    ensures var r := Pressed(b, 0); r.1 == Progress(b, 0) && Holding(r.0, b, 0)
  {
    TimesMore(0, true);
    assert Scans(b, Times(0, true)) == (b, []);
  }

  lemma PressGoesOn(b: Button, n: nat)
    requires Rising(b) && (b.hold < COUNTER_MAX || n <= COUNTER_MAX) && n > 0
    requires Pressed(b, n - 1).1 == Progress(b, n - 1) && Holding(Pressed(b, n - 1).0, b, n - 1)
    ensures Pressed(b, n).1 == Progress(b, n) && Holding(Pressed(b, n).0, b, n)
  {
    TimesMore(n, true);
    HoldStep(Pressed(b, n - 1).0, b, n);
    ProgressGrows(b, n);
  }

  /** A release after `n` scans of holding: the events are those of the press and one up event that
      its whole length decides; a short one opens a click instead. */
  lemma PressAndRelease(b: Button, n: nat)
    requires Ordered(b) && b.stage.Default?
    ensures var r := Scans(b, Times(n + 1, true) + [false]);
            && r.1 == Progress(b, n) + UpEvent(b, n + 1)
            && (n + 1 >= b.short ==> r.0.stage.Default?)
            && (n + 1 < b.short ==> r.0.stage.MultipleClick? && r.0.clicks == 1)
  {
    LongPress(b, n);
    CountGoesOn(Pressed(b, n).0, n);
    var all := Times(n + 1, true) + [false];
    assert all[..n + 1] == Times(n + 1, true);
  }

  /** With the hold threshold at the top of the counter's range, the counter does wrap. */
  predicate Wrapped(b: Button, start: Button, scan: nat) {
    b.stage.Down? && b.clicks == 0 && SameSettings(b, start) && b.event == LongHold && b.scan == scan
  }

  lemma {:induction false} WrapsRound(b: Button, j: nat)
    requires Rising(b) && b.hold == COUNTER_MAX && b.stage.Default? && j < b.short
    ensures var r := Pressed(b, COUNTER_MAX + 1 + j); r.1 == Progress(b, COUNTER_MAX) && Wrapped(r.0, b, j)
    decreases j
  {
    ScansMore(b, COUNTER_MAX + 1 + j, true);
    if j == 0 {
      LongPress(b, COUNTER_MAX);
      WrapScan(Pressed(b, COUNTER_MAX).0, b);
    } else {
      WrapsRound(b, j - 1);
      WrappedScan(Pressed(b, COUNTER_MAX + j).0, b, j - 1);
    }
  }

  lemma WrapScan(b: Button, start: Button)
    requires Rising(start) && start.hold == COUNTER_MAX && Holding(b, start, COUNTER_MAX)
    ensures var one := Scanned(b, true); Wrapped(one.0, start, 0) && one.1 == []
  {
  }

  lemma WrappedScan(b: Button, start: Button, j: nat)
    requires Rising(start) && Wrapped(b, start, j) && j + 1 < start.short
    ensures var one := Scanned(b, true); Wrapped(one.0, start, j + 1) && one.1 == []
  {
  }

  /** A press so long then reports its short start a second time. */
  lemma StartsTwice(b: Button)
    requires Rising(b) && b.hold == COUNTER_MAX && b.stage.Default?
    ensures Pressed(b, COUNTER_MAX + 1 + b.short).1 == Progress(b, COUNTER_MAX) + [ShortStart]
  {
    WrapsRound(b, b.short - 1);
    ScansMore(b, COUNTER_MAX + 1 + b.short, true);
    ShortAgain(Pressed(b, COUNTER_MAX + b.short).0, b);
  }

  lemma ShortAgain(b: Button, start: Button)
    requires Rising(start) && Wrapped(b, start, start.short - 1)
    ensures Scanned(b, true).1 == [ShortStart]
  {
  }

  /** Each start event comes once however long the press, exactly when the hold threshold is below
      the top of the counter's range. */
  lemma StartEventsOnce(b: Button)
    requires Rising(b) && b.stage.Default?
    ensures (forall n: nat :: Pressed(b, n).1 == Progress(b, n)) <==> b.hold < COUNTER_MAX
  {
    if b.hold < COUNTER_MAX {
      forall n: nat ensures Pressed(b, n).1 == Progress(b, n) { LongPress(b, n); }
    } else {
      var n := COUNTER_MAX + 1 + b.short;
      StartsTwice(b);
      assert |Progress(b, n)| == 4 && |Pressed(b, n).1| == 5;
    }
  }

  /** Where a press stands after `n` scans of holding, with the hold threshold at the top. */
  predicate Circling(b: Button, start: Button, n: nat) {
    b.stage.Down? && b.clicks == 0 && SameSettings(b, start) && b.scan == n % (COUNTER_MAX + 1)
  }

  lemma {:induction false} CountCircles(b: Button, n: nat)
    requires Rising(b) && b.hold == COUNTER_MAX && b.stage.Default?
    ensures Circling(Pressed(b, n).0, b, n)
  {
    ScansMore(b, n, true);
    if n == 0 {
      ScansNone(b, true);
    } else {
      CountCircles(b, n - 1);
      CircleOn(Pressed(b, n - 1).0, b, n - 1);
    }
  }

  lemma CircleOn(b: Button, start: Button, n: nat)
    requires Rising(start) && start.hold == COUNTER_MAX && Circling(b, start, n)
    ensures Circling(Scanned(b, true).0, start, n + 1) && Counted(b).scan == (n + 1) % (COUNTER_MAX + 1)
  {
    NextInCircle(n);
  }

  lemma NextInCircle(n: nat)
    ensures (n % (COUNTER_MAX + 1) + 1) % (COUNTER_MAX + 1) == (n + 1) % (COUNTER_MAX + 1)
  {
  }

  /** The up event tells the length of the press, however long, exactly while the counter has not
      wrapped, or when it stands at the top again. */
  lemma UpEventIff(b: Button, n: nat)
    requires Rising(b) && b.stage.Default?
    ensures Scanned(Pressed(b, n).0, false).1 == UpEvent(b, n + 1) <==>
              b.hold < COUNTER_MAX || n + 1 <= COUNTER_MAX || (n + 1) % (COUNTER_MAX + 1) == COUNTER_MAX
  {
    if b.hold < COUNTER_MAX {
      LongPress(b, n);
      CountGoesOn(Pressed(b, n).0, n);
    } else {
      CountCircles(b, n);
      CircleOn(Pressed(b, n).0, b, n);
      UpInCircle(Pressed(b, n).0, b, n);
    }
  }

  lemma UpInCircle(b: Button, start: Button, n: nat)
    requires Rising(start) && start.hold == COUNTER_MAX && b.stage.Down? && SameSettings(b, start)
    requires Counted(b).scan == (n + 1) % (COUNTER_MAX + 1)
    ensures Scanned(b, false).1 == UpEvent(start, n + 1) <==> n + 1 <= COUNTER_MAX || (n + 1) % (COUNTER_MAX + 1) == COUNTER_MAX
  {
  }

  // ----- several short clicks -----

  /** A click: pressed for one scan and `down` more, then up for `up` scans. */
  datatype Tap = Tap(down: nat, up: nat)

  function TapScans(t: Tap): seq<bool> {
    Times(t.down + 1, true) + Times(t.up, false)
  }

  function Train(taps: seq<Tap>): seq<bool> {
    if taps == [] then [] else Train(taps[..|taps| - 1]) + TapScans(taps[|taps| - 1])
  }

  /** Released before the short threshold, and pressed again within the interval. */
  predicate Quick(b: Button, t: Tap) {
    t.up > 0 && t.down + 1 < b.short && t.down + t.up <= b.interval
  }

  function Joined(a: seq<Event>, b: seq<Event>): (es: seq<Event>)
    ensures b == [] ==> es == a
    ensures a == [] ==> es == b
  {
    a + b
  }

  lemma JoinedApart(a: seq<Event>, b: seq<Event>, c: seq<Event>)
    ensures Joined(a, Joined(b, c)) == Joined(Joined(a, b), c)
  {
  }

  lemma ScansSnoc(b: Button, x: seq<bool>, pressed: bool)
    ensures var before := Scans(b, x); var one := Scanned(before.0, pressed);
            Scans(b, x + [pressed]) == (one.0, Joined(before.1, one.1))
  {
    assert (x + [pressed])[..|x|] == x;
  }

  lemma ScansMore(b: Button, n: nat, pressed: bool)
    ensures var before := Scans(b, Times(n, pressed)); var one := Scanned(before.0, pressed);
            Scans(b, Times(n + 1, pressed)) == (one.0, Joined(before.1, one.1))
  {
    assert Times(n + 1, pressed) == Times(n, pressed) + [pressed];
    ScansSnoc(b, Times(n, pressed), pressed);
  }

  lemma ScansNone(b: Button, pressed: bool)
    ensures Scans(b, Times(0, pressed)) == (b, [])
  {
    assert Times(0, pressed) == [];
  }

  lemma {:induction false} ScansApart(b: Button, x: seq<bool>, y: seq<bool>)
    ensures var r := Scans(b, x); var q := Scans(r.0, y);
            Scans(b, x + y) == (q.0, Joined(r.1, q.1))
    decreases |y|
  {
    if y == [] {
      assert x + y == x;
    } else {
      var n := |y| - 1;
      assert y == y[..n] + [y[n]] && x + y == (x + y[..n]) + [y[n]];
      ScansApart(b, x, y[..n]);
      ScansSnoc(b, x + y[..n], y[n]);
      var r := Scans(b, x);
      ScansSnoc(r.0, y[..n], y[n]);
      var q := Scans(r.0, y[..n]);
      JoinedApart(r.1, q.1, Scanned(q.0, y[n]).1);
    }
  }

  /** Where the button stands between clicks. */
  predicate Between(b: Button, clicks: nat, scan: nat) {
    if clicks == 0 then b.stage.Default? else b.stage.MultipleClick? && b.clicks == clicks && b.scan == scan
  }

  predicate GoingDown(b: Button, clicks: nat, scan: nat) {
    b.stage.Down? && b.clicks == clicks && b.scan == scan
  }

  predicate Usable(b: Button) {
    Ordered(b) && b.interval < COUNTER_MAX - 1
  }

  lemma ScanDown(b: Button, clicks: nat, scan: nat)
    requires Usable(b) && Between(b, clicks, scan) && scan <= b.interval
    ensures var r := Scanned(b, true);
            GoingDown(r.0, clicks, 0) && SameSettings(r.0, b) && r.1 == if clicks == 0 then [PressDown] else []
  {
  }

  lemma ScanStaysDown(b: Button, clicks: nat, scan: nat)
    requires Usable(b) && GoingDown(b, clicks, scan) && scan + 1 < b.short && scan + 1 <= b.interval
    ensures var r := Scanned(b, true); GoingDown(r.0, clicks, scan + 1) && SameSettings(r.0, b) && r.1 == []
  {
  }

  lemma ScanUp(b: Button, clicks: nat, scan: nat)
    requires Usable(b) && GoingDown(b, clicks, scan) && scan + 1 < b.short && clicks < COUNTER_MAX
    ensures var r := Scanned(b, false); Between(r.0, clicks + 1, scan + 1) && SameSettings(r.0, b) && r.1 == []
  {
  }

  lemma ScanStaysUp(b: Button, clicks: nat, scan: nat)
    requires Usable(b) && Between(b, clicks, scan) && clicks > 0 && scan + 1 <= b.interval
    ensures var r := Scanned(b, false); Between(r.0, clicks, scan + 1) && SameSettings(r.0, b) && r.1 == []
  {
  }

  lemma ScanEnds(b: Button, clicks: nat)
    requires Usable(b) && Between(b, clicks, b.interval) && clicks > 0
    ensures var r := Scanned(b, false); r.0.stage.Default? && r.1 == [ClickEvent(clicks)]
  {
  }

  lemma {:induction false} TapDown(b: Button, clicks: nat, scan: nat, down: nat)
    requires Usable(b) && Between(b, clicks, scan) && scan <= b.interval
    requires down + 1 < b.short && down <= b.interval
    ensures var r := Scans(b, Times(down + 1, true));
            && GoingDown(r.0, clicks, down) && SameSettings(r.0, b)
            && r.1 == if clicks == 0 then [PressDown] else []
    decreases down
  {
    if down == 0 {
      TapBegins(b, clicks, scan);
    } else {
      TapDown(b, clicks, scan, down - 1);
      TapGoesOn(b, clicks, down);
    }
  }

  lemma TapBegins(b: Button, clicks: nat, scan: nat)
    requires Usable(b) && Between(b, clicks, scan) && scan <= b.interval
    ensures var r := Scans(b, Times(1, true));
            && GoingDown(r.0, clicks, 0) && SameSettings(r.0, b)
            && r.1 == if clicks == 0 then [PressDown] else []
  {
    ScansMore(b, 0, true);
    ScansNone(b, true);
    ScanDown(b, clicks, scan);
  }

  lemma TapGoesOn(b: Button, clicks: nat, down: nat)
    requires Usable(b) && 0 < down && down + 1 < b.short && down <= b.interval
    requires var r := Scans(b, Times(down, true)); GoingDown(r.0, clicks, down - 1) && SameSettings(r.0, b)
    ensures var r, r' := Scans(b, Times(down, true)), Scans(b, Times(down + 1, true));
            GoingDown(r'.0, clicks, down) && SameSettings(r'.0, b) && r'.1 == r.1
  {
    ScansMore(b, down, true);
    ScanStaysDown(Scans(b, Times(down, true)).0, clicks, down - 1);
  }

  lemma {:induction false} TapUp(b: Button, clicks: nat, down: nat, up: nat)
    requires Usable(b) && GoingDown(b, clicks, down) && clicks < COUNTER_MAX
    requires up > 0 && down + 1 < b.short && down + up <= b.interval
    ensures var r := Scans(b, Times(up, false));
            Between(r.0, clicks + 1, down + up) && SameSettings(r.0, b) && r.1 == []
    decreases up
  {
    ScansMore(b, up - 1, false);
    if up == 1 {
      ScansNone(b, false);
      ScanUp(b, clicks, down);
    } else {
      TapUp(b, clicks, down, up - 1);
      ScanStaysUp(Scans(b, Times(up - 1, false)).0, clicks + 1, down + up - 1);
    }
  }

  lemma OneTap(b: Button, clicks: nat, scan: nat, t: Tap)
    requires Usable(b) && Between(b, clicks, scan) && scan <= b.interval && Quick(b, t) && clicks < COUNTER_MAX
    ensures var r := Scans(b, TapScans(t));
            && Between(r.0, clicks + 1, t.down + t.up) && SameSettings(r.0, b)
            && r.1 == if clicks == 0 then [PressDown] else []
  {
    TapDown(b, clicks, scan, t.down);
    TapUp(Scans(b, Times(t.down + 1, true)).0, clicks, t.down, t.up);
    ScansApart(b, Times(t.down + 1, true), Times(t.up, false));
  }

  function SinceLast(taps: seq<Tap>): nat {
    if taps == [] then 0 else taps[|taps| - 1].down + taps[|taps| - 1].up
  }

  ghost predicate AfterTrain(b: Button, taps: seq<Tap>) {
    var r := Scans(b, Train(taps));
    && SameSettings(r.0, b) && r.1 == (if taps == [] then [] else [PressDown])
    && Between(r.0, |taps|, SinceLast(taps))
  }

  lemma OneMoreTap(b: Button, fewer: seq<Tap>, t: Tap)
    requires Usable(b) && AfterTrain(b, fewer) && SinceLast(fewer) <= b.interval && Quick(b, t) && |fewer| < COUNTER_MAX
    ensures AfterTrain(b, fewer + [t])
  {
    var taps := fewer + [t];
    assert taps[..|taps| - 1] == fewer;
    OneTap(Scans(b, Train(fewer)).0, |fewer|, SinceLast(fewer), t);
    ScansApart(b, Train(fewer), TapScans(t));
  }

  lemma {:induction false} TapTrain(b: Button, taps: seq<Tap>)
    requires Usable(b) && b.stage.Default? && |taps| < COUNTER_MAX
    requires forall i :: 0 <= i < |taps| ==> Quick(b, taps[i])
    ensures AfterTrain(b, taps) && SinceLast(taps) <= b.interval
    decreases |taps|
  {
    if taps == [] {
      NoTaps(b);
    } else {
      var fewer, t := taps[..|taps| - 1], taps[|taps| - 1];
      TapTrain(b, fewer);
      assert fewer + [t] == taps;
      OneMoreTap(b, fewer, t);
    }
  }

  lemma NoTaps(b: Button)
    requires Usable(b) && b.stage.Default?
    ensures AfterTrain(b, [])
  {
    ScansNone(b, false);
  }

  lemma {:induction false} StillUp(b: Button, clicks: nat, scan: nat, up: nat)
    requires Usable(b) && Between(b, clicks, scan) && clicks > 0 && scan + up <= b.interval
    ensures var r := Scans(b, Times(up, false));
            Between(r.0, clicks, scan + up) && SameSettings(r.0, b) && r.1 == []
    decreases up
  {
    if up == 0 {
      ScansNone(b, false);
    } else {
      ScansMore(b, up - 1, false);
      StillUp(b, clicks, scan, up - 1);
      ScanStaysUp(Scans(b, Times(up - 1, false)).0, clicks, scan + up - 1);
    }
  }

  lemma LastWait(b: Button, clicks: nat, scan: nat)
    requires Usable(b) && Between(b, clicks, scan) && clicks > 0 && scan <= b.interval
    ensures var r := Scans(b, Times(b.interval - scan + 1, false)); r.0.stage.Default? && r.1 == [ClickEvent(clicks)]
  {
    var wait := b.interval - scan;
    StillUp(b, clicks, scan, wait);
    ScansMore(b, wait, false);
    ScanEnds(Scans(b, Times(wait, false)).0, clicks);
  }

  /** Any number of quick clicks, then nothing for the rest of the interval: one press and one
      event for all of them, which counts up to two and then says "repeated". */
  lemma ClicksCounted(b: Button, taps: seq<Tap>)
    requires Usable(b) && b.stage.Default? && 0 < |taps| < COUNTER_MAX
    requires forall i :: 0 <= i < |taps| ==> Quick(b, taps[i])
    ensures SinceLast(taps) <= b.interval
    ensures var r := Scans(b, Train(taps) + Times(b.interval - SinceLast(taps) + 1, false));
            && r.1 == [PressDown, if |taps| == 1 then Click else if |taps| == 2 then DoubleClick else RepeatClick]
            && r.0.stage.Default?
  {
    assert Quick(b, taps[|taps| - 1]);
    TapTrain(b, taps);
    LastWait(Scans(b, Train(taps)).0, |taps|, SinceLast(taps));
    ScansApart(b, Train(taps), Times(b.interval - SinceLast(taps) + 1, false));
  }
}
