/**
 The button registry and its scan, as the library performs them on button objects.
 Register words are the sets of their bits.
 */
module FlexibleButton {
  import opened ButtonSpec
  import opened ButtonScan

  const WORD_BITS: nat := 32
  const MAX_MULTIPLE_CLICKS_INTERVAL: nat := 15  // 300 ms at 50 scans a second

  class FlexButton {
    const pressedLevel: bool
    var stage: Stage
    var event: Event
    var scan: nat
    var clicks: nat
    var interval: nat
    var short: nat
    var long: nat
    var hold: nat
    ghost var reported: seq<Event>  // every callback made

    constructor (pressedLevel: bool, short: nat, long: nat, hold: nat)
      ensures this.pressedLevel == pressedLevel && this.short == short && this.long == long && this.hold == hold
    {
      this.pressedLevel, this.short, this.long, this.hold := pressedLevel, short, long, hold;
      stage, event, scan, clicks, interval, reported := Default, NoEvent, 0, 0, 0, [];
    }

    ghost function View(): Button
      reads this
    {
      Button(stage, event, scan, clicks, interval, short, long, hold)
    }

    /** EVENT_SET_AND_EXEC_CB. */
    method Report(e: Event)
      modifies this`event, this`reported
      ensures event == e && reported == old(reported) + [e]
    {
      event := e;
      reported := reported + [e];
    }

    method CountScan()
      modifies this`scan
      ensures View() == Counted(old(View()))
    {
      if stage != Default {
        scan := (scan + 1) % 0x1_0000;
        if scan >= 0xFFFF {
          scan := hold;
        }
      }
    }

    /** The button stays down. */
    method StayDown()
      modifies this`event, this`scan, this`clicks, this`reported
      ensures View() == Held(old(View())).0 && reported == old(reported) + Held(old(View())).1
    {
      if clicks > 0 {
        if scan > interval {
          Report(ClickEvent(clicks));
          scan, clicks := 0, 0;
        }
      } else if scan >= hold {
        if event != LongHold { Report(LongHold); }
      } else if scan >= long {
        if event != LongStart { Report(LongStart); }
      } else if scan >= short {
        if event != ShortStart { Report(ShortStart); }
      }
    }

    /** The button goes up. */
    method GoUp()
      modifies this`event, this`stage, this`clicks, this`reported
      ensures View() == Released(old(View())).0 && reported == old(reported) + Released(old(View())).1
    {
      if scan >= hold {
        Report(LongHoldUp);
        stage := Default;
      } else if scan >= long {
        Report(LongUp);
        stage := Default;
      } else if scan >= short {
        Report(ShortUp);
        stage := Default;
      } else {
        stage := MultipleClick;
        clicks := (clicks + 1) % 0x1_0000;
      }
    }

    /** The body of the loop of flex_button_process. */
    method Process(pressed: bool)
      modifies this
      ensures View() == Scanned(old(View()), pressed).0
      ensures reported == old(reported) + Scanned(old(View()), pressed).1
      ensures exists es :: reported == old(reported) + es && ScanDoes(old(View()), pressed, View(), es)
    {
      ScanMeans(View(), pressed);
      CountScan();
      match stage {
        case Default =>
          if pressed {
            scan, clicks := 0, 0;
            Report(PressDown);
            stage := Down;
          } else {
            event := NoEvent;
          }
        case Down =>
          if pressed { StayDown(); } else { GoUp(); }
        case MultipleClick =>
          if pressed {
            stage, scan := Down, 0;
          } else if scan > interval {
            Report(ClickEvent(clicks));
            stage := Default;
          }
      }
    }
  }

  predicate Distinct(list: seq<FlexButton>) {
    forall i, j :: 0 <= i < j < |list| ==> list[i] != list[j]
  }

  /** A button and all it has reported. */
  datatype Snapshot = Snapshot(button: Button, reported: seq<Event>)

  ghost function Snap(b: FlexButton): Snapshot
    reads b
  {
    Snapshot(b.View(), b.reported)
  }

  /** A snapshot one scan later, with what the scan reports. */
  function Later(was: Snapshot, pressed: bool): Snapshot {
    var r := Scanned(was.button, pressed);
    Snapshot(r.0, was.reported + r.1)
  }

  /** The snapshots of a list, and what they become in one scan; the newest button has the highest bit. */
  lemma {:induction false} Snaps(list: seq<FlexButton>, status: set<nat>) returns (was: seq<Snapshot>, goal: seq<Snapshot>)
    ensures |was| == |goal| == |list| && forall k :: 0 <= k < |list| ==> was[k] == Snap(list[k])
    ensures AllDue(was, goal, status)
  {
    if list == [] {
      was, goal := [], [];
    } else {
      var was1, goal1 := Snaps(list[1..], status);
      was := [Snap(list[0])] + was1;
      goal := [Later(was[0], |list| - 1 in status)] + goal1;
      forall k: nat | k < |was| ensures Due(was, goal, status, k) {
        if k > 0 { assert Due(was1, goal1, status, k - 1); }
      }
    }
  }

  predicate Due(was: seq<Snapshot>, goal: seq<Snapshot>, status: set<nat>, k: nat)
    requires k < |was| == |goal|
  {
    goal[k] == Later(was[k], |was| - 1 - k in status)
  }

  predicate AllDue(was: seq<Snapshot>, goal: seq<Snapshot>, status: set<nat>)
    requires |was| == |goal|
  {
    forall k: nat :: k < |was| ==> Due(was, goal, status, k)
  }

  /** The first `k` buttons have taken their step and the others have not. */
  ghost predicate Stepped(list: seq<FlexButton>, was: seq<Snapshot>, goal: seq<Snapshot>, k: nat)
    requires |was| == |goal| == |list|
    reads list
  {
    forall j :: 0 <= j < |list| ==> Snap(list[j]) == if j < k then goal[j] else was[j]
  }

  /** The places of the buttons that are not up for good. */
  function InUse(list: seq<FlexButton>): set<nat>
    reads list
  {
    set i: nat | i < |list| && list[i].stage != Default
  }

  /** The places below `k` of those that will not be. */
  function UsedBelow(goal: seq<Snapshot>, k: nat): set<nat>
    requires k <= |goal|
  {
    set i: nat | i < k && goal[i].button.stage != Default
  }

  lemma OneMoreUsed(goal: seq<Snapshot>, k: nat)
    requires k < |goal|
    ensures |UsedBelow(goal, k + 1)| == |UsedBelow(goal, k)| + if goal[k].button.stage == Default then 0 else 1
  {
    assert UsedBelow(goal, k + 1) == UsedBelow(goal, k) + if goal[k].button.stage == Default then {} else {k};
  }

  class Registry {
    var list: seq<FlexButton>  // the linked list, the newest button first
    var logicLevel: set<nat>
    var status: set<nat>

    /** Bit `k` of the logic levels belongs to the button registered after `k` others. */
    ghost predicate Valid()
      reads this
    {
      && Distinct(list)
      && forall i: nat :: i < |list| ==> (i in logicLevel <==> list[|list| - 1 - i].pressedLevel)
    }

    constructor ()
      ensures Valid() && list == []
    {
      list, logicLevel, status := [], {}, {};
    }

    /** flex_button_register. The guard admits one button more than the words have bits. */
    method Register(button: FlexButton) returns (r: int)
      requires Valid() && forall i :: i in logicLevel ==> i < |list|
      modifies this`list, this`logicLevel, button
      ensures Valid() && forall i :: i in logicLevel ==> i < |list|
      ensures r == if old(|list|) > WORD_BITS || button in old(list) then -1 else |list|
      ensures r == -1 ==> list == old(list) && button.View() == old(button.View()) && button.reported == old(button.reported)
      ensures r != -1 ==> list == [button] + old(list) && button.stage == Default && button.interval == MAX_MULTIPLE_CLICKS_INTERVAL
      ensures r != -1 ==> button.event == NoEvent && button.scan == 0 && button.clicks == 0
    {
      if |list| > WORD_BITS {
        return -1;
      }
      var curr := 0;
      while curr < |list|
        invariant curr <= |list| && button !in list[..curr]
      {
        if list[curr] == button {
          return -1;
        }
        curr := curr + 1;
      }
      assert list[..curr] == list;
      button.stage, button.event, button.scan, button.clicks := Default, NoEvent, 0, 0;
      button.interval := MAX_MULTIPLE_CLICKS_INTERVAL;
      if button.pressedLevel {
        logicLevel := logicLevel + {|list|};
      }
      list := [button] + list;
      return |list|;
    }

    /** The bit of each button says that its own pin is at the level of a press: bit `k` for the
        button registered after `k` others. */
    ghost predicate OwnPins(pins: seq<bool>)
      requires |pins| == |list|
      reads this
    {
      forall k :: 0 <= k < |list| ==> (|list| - 1 - k in status <==> pins[k] == list[k].pressedLevel)
    }

    /** flex_button_read, for what the user's read function returns for each button of the list. */
    method Read(pins: seq<bool>)
      requires Valid() && |list| <= WORD_BITS && |pins| == |list|
      modifies this`status
      ensures OwnPins(pins)
    {
      var raw: set<nat> := {};
      var k := 0;
      while k < |list|
        invariant 0 <= k <= |list|
        invariant forall j :: 0 <= j < |list| ==> (|list| - 1 - j in raw <==> j < k && pins[j])
      {
        if pins[k] {
          raw := raw + {|list| - 1 - k};
        }
        k := k + 1;
      }
      status := set i: nat | i < WORD_BITS && ((i !in raw) != (i in logicLevel));
      forall j: nat | j < |list| ensures |list| - 1 - j in status <==> pins[j] == list[j].pressedLevel {
        OwnLevel(j);
      }
    }

    /** The bit of the logic levels of the `j`-th button of the list. */
    lemma OwnLevel(j: nat)
      requires Valid() && j < |list|
      ensures |list| - 1 - j in logicLevel <==> list[j].pressedLevel
    {
      assert list[|list| - 1 - (|list| - 1 - j)] == list[j];
    }

    /** flex_button_process: every button takes the step that its bit calls for, the newest button that of
        the highest bit; the result counts the buttons that are then in use. */
    method Process() returns (active: nat)
      requires Valid() && |list| <= WORD_BITS
      modifies list
      ensures forall j :: 0 <= j < |list| ==> Snap(list[j]) == Later(old(Snap(list[j])), |list| - 1 - j in status)
      ensures active == |InUse(list)|
    {
      ghost var was, goal := Snaps(list, status);
      active := ProcessAll(was, goal);
      forall k: nat | k < |list| ensures Snap(list[k]) == Later(was[k], |list| - 1 - k in status) {
        assert Due(was, goal, status, k);
      }
      assert InUse(list) == UsedBelow(goal, |list|);
    }

    method ProcessAll(ghost was: seq<Snapshot>, ghost goal: seq<Snapshot>) returns (active: nat)
      requires Distinct(list) && |was| == |goal| == |list| && Stepped(list, was, goal, 0)
      requires AllDue(was, goal, status)
      modifies list
      ensures Stepped(list, was, goal, |list|) && active == |UsedBelow(goal, |list|)|
    {
      active := 0;
      assert UsedBelow(goal, 0) == {};
      var k := 0;
      while k < |list|
        invariant 0 <= k <= |list| && active == |UsedBelow(goal, k)| && Stepped(list, was, goal, k)
      {
        OneMoreUsed(goal, k);
        var used := ProcessAt(k, was, goal);
        if used {
          active := active + 1;
        }
        k := k + 1;
      }
    }

    /** One turn of that loop: the buttons before and after it in the list do not notice. */
    method ProcessAt(k: nat, ghost was: seq<Snapshot>, ghost goal: seq<Snapshot>) returns (used: bool)
      requires Distinct(list) && k < |list| == |was| == |goal| && Stepped(list, was, goal, k)
      requires AllDue(was, goal, status)
      modifies list[k]
      ensures Stepped(list, was, goal, k + 1) && (used <==> goal[k].button.stage != Default)
    {
      assert Due(was, goal, status, k);
      list[k].Process(|list| - 1 - k in status);
      used := list[k].stage != Default;
    }

    /** flex_button_scan: each button sees its own pin, wherever it is in the list. */
    method Scan(pins: seq<bool>) returns (active: nat)
      requires Valid() && |list| <= WORD_BITS && |pins| == |list|
      modifies this`status, list
      ensures Valid() && OwnPins(pins)
      ensures forall k :: 0 <= k < |list| ==> Snap(list[k]) == Later(old(Snap(list[k])), pins[k] == list[k].pressedLevel)
      ensures active == |InUse(list)|
    {
      Read(pins);
      active := Process();
    }
  }
}
