/** The booking grid: 30-minute slots from 09:00 up to, but not including,
    17:00, rendered as `strftime("%H:%M")` renders a time of day, and the scan
    that keeps the slots nobody holds. */
module Slots {
  import opened Wrappers
  import opened Text

  const MinutesPerDay: nat := 1440
  /** 09:00, the first slot. */
  const SlotStart: nat := 540
  /** 17:00, the end of the grid; no slot starts here. */
  const SlotEnd: nat := 1020
  const SlotStep: nat := 30

  /** `strftime("%H:%M")` of the time `minutes` after midnight. */
  function FormatSlot(minutes: nat): string
    requires minutes < MinutesPerDay
  {
    Pad2(minutes / 60) + ":" + Pad2(minutes % 60)
  }

  /** Hours and minutes are recovered from the minute of the day they denote. */
  lemma ClockSplit(h: nat, minute: nat)
    requires minute < 60
    ensures (h * 60 + minute) / 60 == h && (h * 60 + minute) % 60 == minute
  {
  }

  /** The minute of the day an `HH:MM` text denotes, or `None` when the text
      does not have that shape. */
  function ParseSlot(s: string): Option<nat> {
    if |s| == 5 && s[2] == ':' && AllDigits(s[..2]) && AllDigits(s[3..])
    then Some(DecimalValue(s[..2]) * 60 + DecimalValue(s[3..]))
    else None
  }

  /** Every rendered time of day reads back as the minute it came from. */
  lemma FormatParseRoundTrip(m: nat)
    requires m < MinutesPerDay
    ensures ParseSlot(FormatSlot(m)) == Some(m)
  {
    var h, mm := Pad2(m / 60), Pad2(m % 60);
    var s := FormatSlot(m);
    assert s[..2] == h && s[3..] == mm;
  }

  /** `a` is an earlier time of day than `b`. */
  predicate SlotBefore(a: string, b: string) {
    ParseSlot(a).Some? && ParseSlot(b).Some? && ParseSlot(a).value < ParseSlot(b).value
  }

  /** Strictly ascending times of day. */
  predicate Ascending(s: seq<string>) {
    forall i, j :: 0 <= i < j < |s| ==> SlotBefore(s[i], s[j])
  }

  /** The i-th slot of the grid: 09:00 plus 30·i minutes. */
  function GridSlot(i: nat): string
    requires i < 16
  {
    FormatSlot(SlotStart + SlotStep * i)
  }

  /** The whole grid, the sixteen slots in the order the loop visits them. */
  function Grid(): (g: seq<string>)
    ensures |g| == 16
    ensures forall i :: 0 <= i < 16 ==> g[i] == GridSlot(i)
  {
    seq(16, i requires 0 <= i < 16 => GridSlot(i))
  }

  /** The i-th grid slot reads back as 09:00 plus 30·i minutes. */
  lemma GridSlotMinute(i: nat)
    requires i < 16
    ensures ParseSlot(GridSlot(i)) == Some(SlotStart + SlotStep * i)
  {
    FormatParseRoundTrip(SlotStart + SlotStep * i);
  }

  /** The grid is strictly ascending and does not contain 17:00. */
  lemma GridAscending()
    ensures Ascending(Grid())
    ensures "17:00" !in Grid()
  {
    var g := Grid();
    forall i | 0 <= i < 16 {
      GridSlotMinute(i);
    }
    assert ParseSlot("17:00") == Some(1020) by {
      assert "17:00"[..2] == "17" && "17:00"[3..] == "00";
      assert DecimalValue("17") == 17 by {
        assert "17"[..1] == "1";
      }
      assert DecimalValue("00") == 0 by {
        assert "00"[..1] == "0";
      }
    }
  }

  /** The five characters `strftime("%H:%M")` writes. */
  lemma SlotText(m: nat)
    requires m < MinutesPerDay
    ensures FormatSlot(m) == [DigitChar(m / 60 / 10), DigitChar(m / 60 % 10), ':',
                              DigitChar(m % 60 / 10), DigitChar(m % 60 % 10)]
  {
    Pad2Digits(m / 60);
    Pad2Digits(m % 60);
  }

  /** The grid opens with 09:00 and closes with 16:30. */
  lemma GridEnds()
    ensures Grid()[0] == "09:00" && Grid()[15] == "16:30"
  {
    assert Grid()[0] == FormatSlot(540) && Grid()[15] == FormatSlot(990);
    assert FormatSlot(540) == "09:00" by {
      SlotText(540);
      assert DigitChar(0) == '0' && DigitChar(9) == '9';
    }
    assert FormatSlot(990) == "16:30" by {
      SlotText(990);
      assert DigitChar(0) == '0' && DigitChar(1) == '1';
      assert DigitChar(3) == '3' && DigitChar(6) == '6';
    }
  }

  /** The slots of `grid`, in order, that are not in `booked`. */
  function FreeSlots(grid: seq<string>, booked: set<string>): (r: seq<string>)
    ensures |r| <= |grid|
    decreases |grid|
  {
    if |grid| == 0 then []
    else
      var last := grid[|grid| - 1];
      FreeSlots(grid[..|grid| - 1], booked) + (if last in booked then [] else [last])
  }

  /** The free slots are exactly the slots of the grid nobody holds. */
  lemma {:induction false} FreeSlotsMembers(grid: seq<string>, booked: set<string>)
    ensures forall x :: x in FreeSlots(grid, booked) <==> x in grid && x !in booked
    decreases |grid|
  {
    if |grid| > 0 {
      var init := grid[..|grid| - 1];
      FreeSlotsMembers(init, booked);
      assert grid == init + [grid[|grid| - 1]];
    }
  }

  /** Scanning one more slot adds it to the result exactly when it is not booked. */
  lemma FreeSlotsStep(grid: seq<string>, k: nat, booked: set<string>)
    requires k < |grid|
    ensures FreeSlots(grid[..k + 1], booked)
              == FreeSlots(grid[..k], booked) + (if grid[k] in booked then [] else [grid[k]])
  {
    assert grid[..k + 1][..k] == grid[..k];
  }

  /** With nothing booked, every slot is free. */
  lemma {:induction false} FreeSlotsNoneBooked(grid: seq<string>)
    ensures FreeSlots(grid, {}) == grid
    decreases |grid|
  {
    if |grid| > 0 {
      FreeSlotsNoneBooked(grid[..|grid| - 1]);
      assert grid[..|grid| - 1] + [grid[|grid| - 1]] == grid;
    }
  }

  /** Dropping slots from an ascending grid leaves it ascending. */
  lemma {:induction false} FreeSlotsAscending(grid: seq<string>, booked: set<string>)
    requires Ascending(grid)
    ensures Ascending(FreeSlots(grid, booked))
    decreases |grid|
  {
    if |grid| > 0 {
      var n := |grid|;
      var init := grid[..n - 1];
      var rest := FreeSlots(init, booked);
      FreeSlotsAscending(init, booked);
      FreeSlotsMembers(init, booked);
      forall a | 0 <= a < |rest|
        ensures SlotBefore(rest[a], grid[n - 1])
      {
        assert rest[a] in init;
        var i :| 0 <= i < n - 1 && init[i] == rest[a];
      }
    }
  }

  /** The k-th grid slot is the rendering of 09:00 plus k half hours. */
  lemma SlotIsRendered(grid: seq<string>, k: nat, current: nat)
    requires grid == Grid() && k < 16 && current == SlotStart + SlotStep * k
    ensures current < MinutesPerDay && grid[k] == FormatSlot(current)
  {
  }

  /** The loop of the availability tool: walk the day from 09:00 in 30-minute
      steps while before 17:00, keeping every rendered slot not in `booked`.
      The rendering of the k-th step is read from the grid, which holds it. */
  method ScanGrid(booked: set<string>) returns (slots: seq<string>)
    ensures slots == FreeSlots(Grid(), booked)
  {
    var grid := Grid();
    slots := [];
    var current := SlotStart;
    var k := 0;
    while current < SlotEnd
      invariant 0 <= k <= |grid| && current == SlotStart + SlotStep * k
      invariant slots == FreeSlots(grid[..k], booked)
      decreases SlotEnd - current
    {
      FreeSlotsStep(grid, k, booked);
      var slot := grid[k];
      SlotIsRendered(grid, k, current);
      if slot !in booked {
        slots := slots + [slot];
      }
      current := current + SlotStep;
      k := k + 1;
    }
    assert grid[..k] == grid;
  }
}
