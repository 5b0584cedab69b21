/**
 What one scan does to a button, case by case, and what becomes of a press that follows clicks.
 */
module ButtonScan {
  import opened ButtonSpec

  /** The counter at this scan: it stands still while the button is up for good, and goes back to the hold
      threshold before it would reach its top. */
  function CountAt(b: Button): (n: nat) {
    if b.stage == Default then b.scan
    else if b.scan + 1 == 0xFFFF then b.hold
    else if b.scan + 1 > 0xFFFF then (if (b.scan + 1) % 0x1_0000 == 0xFFFF then b.hold else (b.scan + 1) % 0x1_0000)
    else b.scan + 1
  }

  /** One click, two, or more. */
  function Clicked(n: nat): Event {
    if n == 0 then PressDown else if n == 1 then Click else if n == 2 then DoubleClick else RepeatClick
  }

  /** The event is stored and reported. */
  predicate Tells(b: Button, b': Button, es: seq<Event>, e: Event, stage: Stage, scan: nat, clicks: nat) {
    es == [e] && b' == b.(event := e, stage := stage, scan := scan, clicks := clicks)
  }

  /** A start event is reported unless it was the last one. */
  predicate Starts(b: Button, b': Button, es: seq<Event>, e: Event, n: nat) {
    if b.event == e then es == [] && b' == b.(scan := n) else Tells(b, b', es, e, Down, n, b.clicks)
  }

  predicate ScanDoes(b: Button, pressed: bool, b': Button, es: seq<Event>) {
    var n := CountAt(b);
    match b.stage
    case Default =>
      if pressed then Tells(b, b', es, PressDown, Down, 0, 0) else es == [] && b' == b.(event := NoEvent)
    case Down =>
      if !pressed then
        if n >= b.hold then Tells(b, b', es, LongHoldUp, Default, n, b.clicks)
        else if n >= b.long then Tells(b, b', es, LongUp, Default, n, b.clicks)
        else if n >= b.short then Tells(b, b', es, ShortUp, Default, n, b.clicks)
        else es == [] && b' == b.(stage := MultipleClick, scan := n, clicks := (b.clicks + 1) % 0x1_0000)
      else if b.clicks > 0 then
        if n > b.interval then Tells(b, b', es, Clicked(b.clicks), Down, 0, 0) else es == [] && b' == b.(scan := n)
      else if n >= b.hold then Starts(b, b', es, LongHold, n)
      else if n >= b.long then Starts(b, b', es, LongStart, n)
      else if n >= b.short then Starts(b, b', es, ShortStart, n)
      else es == [] && b' == b.(scan := n)
    case MultipleClick =>
      if pressed then es == [] && b' == b.(stage := Down, scan := 0)
      else if n > b.interval then Tells(b, b', es, Clicked(b.clicks), Default, n, b.clicks)
      else es == [] && b' == b.(scan := n)
  }

  lemma ScanMeans(b: Button, pressed: bool)
    ensures var r := Scanned(b, pressed); ScanDoes(b, pressed, r.0, r.1)
  {
    assert Counted(b) == b.(scan := CountAt(b));
  }

  /** A press after clicks that is held past the interval reports the clicks and then runs like a fresh one:
      each start event once, counted from there. */
  lemma {:induction false} ClicksThenHold(b: Button, n: nat)
    requires Ordered(b) && b.stage == Down && b.clicks > 0 && b.interval < b.scan + 1 < COUNTER_MAX
    ensures var r := Scans(b, Times(n + 1, true));
            && r.1 == [Clicked(b.clicks)] + Progress(b, n)[1..]
            && r.0.stage == Down && r.0.clicks == 0 && SameSettings(r.0, b) && CountsTo(r.0, n)
            && r.0.event == (if n < b.short then Clicked(b.clicks) else StartedBy(b, n))
  {
    ScansMore(b, n, true);
    if n == 0 {
      ScansNone(b, true);
    } else {
      ClicksThenHold(b, n - 1);
      HeldOn(Scans(b, Times(n, true)).0, b, n);
      ProgressTail(b, n);
    }
  }

  lemma HeldOn(b: Button, start: Button, n: nat)
    requires Ordered(start) && n > 0 && b.stage == Down && b.clicks == 0 && SameSettings(b, start) && CountsTo(b, n - 1)
    requires b.event == (if n - 1 < start.short then Clicked(start.clicks) else StartedBy(start, n - 1))
    ensures var one := Scanned(b, true);
            && one.1 == Crossed(start, n) && one.0.stage == Down && one.0.clicks == 0 && SameSettings(one.0, start) && CountsTo(one.0, n)
            && one.0.event == (if n < start.short then Clicked(start.clicks) else StartedBy(start, n))
  {
    CountGoesOn(b, n - 1);
  }

  lemma ProgressTail(b: Button, n: nat)
    requires Rising(b) && n > 0
    ensures Progress(b, n)[1..] == Progress(b, n - 1)[1..] + Crossed(b, n)
    ensures forall e: Event :: [e] + Progress(b, n)[1..] == ([e] + Progress(b, n - 1)[1..]) + Crossed(b, n)
  {
    ProgressGrows(b, n);
  }
}
