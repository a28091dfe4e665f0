/** The ROLU calibrated-to-hit step: for every calibrated item it emits one hit record per
    channel, carrying the leading time and the time-over-threshold (ToT), where the
    trailing time is moved forward by whole TAMEX coarse-counter periods until it lies
    after the leading time. NaN is `None`. */
module RoluCal2Hit {
  import opened Wrappers

  /** Channels per ROLU detector (right, top, left, bottom). */
  const NumChannels: nat := 4

  /** ROLU detectors handled by the task (fNofDetectors). */
  const NumDetectors: nat := 2

  /** Clock cycles in one period of the coarse counter. */
  const CoarseCycles: real := 2048.0

  /** A calibrated item: detector number (1-based) and, per channel, the leading and
      trailing time in ns, `None` where the calibration gave NaN. */
  datatype CalData = CalData(detector: int, timeL: seq<Option<real>>, timeT: seq<Option<real>>)

  /** An output hit record: detector, channel (1-based), leading time and ToT. */
  datatype HitData = HitData(detector: int, channel: int, timeL: Option<real>, tot: Option<real>)

  /** What the task relies on without checking: a detector number that indexes the
      two-detector work arrays, and four channels. */
  predicate WellFormed(c: CalData)
  {
    1 <= c.detector <= NumDetectors as int && |c.timeL| == NumChannels && |c.timeT| == NumChannels
  }

  /** How many whole periods the trailing time t must be moved by to lie after the
      leading time l: none when it already does, otherwise the least k with t + k*period > l. */
  function ShiftCount(t: real, l: real, period: real): (k: nat)
    requires period > 0.0
    ensures t + (k as real) * period - l > 0.0
    ensures k > 0 ==> t + ((k - 1) as real) * period - l <= 0.0
    ensures k == 0 <==> t - l > 0.0
  {
    if t - l > 0.0 then 0
    else
      var f := ((l - t) / period).Floor;
      FloorBounds(t, l, period, f);
      f + 1
  }

  /** a <= b scales to a*p <= b*p for a positive p. */
  lemma ScaleLe(a: real, b: real, p: real)
    requires a <= b && p > 0.0
    ensures a * p <= b * p
  {
    assert b * p - a * p == (b - a) * p;
  }

  /** With f the floor of (l - t)/period, f periods do not carry t past l and f + 1 do. */
  lemma FloorBounds(t: real, l: real, period: real, f: int)
    requires period > 0.0 && t - l <= 0.0
    requires f == ((l - t) / period).Floor
    ensures f >= 0
    ensures t + ((f + 1) as real) * period - l > 0.0
    ensures t + (f as real) * period - l <= 0.0
  {
    var q := (l - t) / period;
    assert q * period == l - t;
    var fr := f as real;
    var g := (f + 1) as real;
    assert fr <= q < g;
    ScaleLe(fr, q, period);
    ScaleLe(q, g, period);
    assert g * period - q * period == (g - q) * period;
    assert g * period != q * period;
  }

  /** The wrap loop of the source: bump t by one period while it does not lie after l.
      The result is the first point of t's period grid after l. */
  method ShiftTrailing(t: real, l: real, period: real) returns (shifted: real)
    requires period > 0.0
    ensures shifted - l > 0.0
    ensures shifted == t + (ShiftCount(t, l, period) as real) * period
    ensures t - l <= 0.0 ==> shifted - l <= period
    ensures t - l > 0.0 ==> shifted == t
  {
    ghost var k := ShiftCount(t, l, period);
    ghost var n: nat := 0;
    shifted := t;
    while shifted - l <= 0.0
      invariant n <= k
      invariant shifted == t + (n as real) * period
      invariant n > 0 ==> shifted - l <= period
      decreases k - n
    {
      if n == k {
        assert false;
      }
      shifted := shifted + period;
      n := n + 1;
    }
    ShiftCountLeast(t, l, period, n);
  }

  /** ShiftCount is the least count that carries t past l. */
  lemma ShiftCountLeast(t: real, l: real, period: real, n: nat)
    requires period > 0.0
    requires t + (n as real) * period - l > 0.0
    ensures ShiftCount(t, l, period) <= n
  {
    var k := ShiftCount(t, l, period);
    if n < k {
      ScaleLe(n as real, (k - 1) as real, period);
    }
  }

  /** The ToT of one channel: present exactly when both times are present and positive,
      and then the wrapped trailing time minus the leading time. */
  function Tot(l: Option<real>, t: Option<real>, period: real): (r: Option<real>)
    requires period > 0.0
    ensures r.Some? <==> l.Some? && t.Some? && t.value > 0.0 && l.value > 0.0
    ensures r.Some? ==> r.value > 0.0
    ensures r.Some? ==> r.value == t.value - l.value + (ShiftCount(t.value, l.value, period) as real) * period
    ensures r.Some? && t.value - l.value <= 0.0 ==> r.value <= period
    ensures r.Some? && t.value - l.value > 0.0 ==> r.value == t.value - l.value
  {
    if l.Some? && t.Some? && t.value > 0.0 && l.value > 0.0 then
      Some(t.value + (ShiftCount(t.value, l.value, period) as real) * period - l.value)
    else None
  }

  /** Every item of the list is well formed. */
  predicate AllWellFormed(items: seq<CalData>)
  {
    forall i :: 0 <= i < |items| ==> WellFormed(items[i])
  }

  /** The four hit records of one calibrated item, channels 1 to 4 in order. */
  function ItemHits(c: CalData, period: real): seq<HitData>
    requires WellFormed(c) && period > 0.0
  {
    seq(NumChannels, ch requires 0 <= ch < NumChannels =>
      HitData(c.detector, ch + 1, c.timeL[ch], Tot(c.timeL[ch], c.timeT[ch], period)))
  }

  /** The hit records of all items, in item order. */
  function HitsOf(items: seq<CalData>, period: real): (r: seq<HitData>)
    requires AllWellFormed(items)
    requires period > 0.0
    ensures |r| == NumChannels * |items|
  {
    if items == [] then [] else ItemHits(items[0], period) + HitsOf(items[1..], period)
  }

  lemma {:induction false} HitsOfAppend(items: seq<CalData>, c: CalData, period: real)
    requires AllWellFormed(items)
    requires WellFormed(c) && period > 0.0
    ensures HitsOf(items + [c], period) == HitsOf(items, period) + ItemHits(c, period)
  {
    if items == [] {
      assert items + [c] == [c];
    } else {
      assert (items + [c])[1..] == items[1..] + [c];
      HitsOfAppend(items[1..], c, period);
    }
  }

  /** Every item yields exactly four records: item p's channel ch (0-based) is record
      4*p + ch, with channel number ch + 1, the item's detector and leading time, and
      the ToT of that channel. */
  lemma {:induction false} HitsOfLayout(items: seq<CalData>, period: real, p: nat, ch: nat)
    requires AllWellFormed(items)
    requires period > 0.0
    requires p < |items| && ch < NumChannels
    ensures |HitsOf(items, period)| == NumChannels * |items|
    ensures HitsOf(items, period)[NumChannels * p + ch]
         == HitData(items[p].detector, ch + 1, items[p].timeL[ch],
                    Tot(items[p].timeL[ch], items[p].timeT[ch], period))
  {
    if p == 0 {
      if |items| > 1 {
        HitsOfLayout(items[1..], period, 0, 0);
      }
    } else {
      HitsOfLayout(items[1..], period, p - 1, ch);
    }
  }

  /** init_array: set every element of a work array to one value. */
  method InitArray(a: array<Option<real>>, init: Option<real>)
    modifies a
    ensures forall k :: 0 <= k < a.Length ==> a[k] == init
  {
    var e := 0;
    while e < a.Length
      invariant 0 <= e <= a.Length
      invariant forall k :: 0 <= k < e ==> a[k] == init
    {
      a[e] := init;
      e := e + 1;
    }
  }

  /** One channel of Exec: copy the leading and trailing times into slot s when they are
      not NaN, and when both are positive wrap the trailing time and store the ToT. The
      slot starts out NaN in all three work arrays; no other slot changes. */
  method CalibrateChannel(timeL: array<Option<real>>, timeT: array<Option<real>>, tot: array<Option<real>>,
                          s: nat, l: Option<real>, t: Option<real>, period: real)
    requires period > 0.0
    requires s < timeL.Length && s < timeT.Length && s < tot.Length
    requires timeL != timeT && timeL != tot && timeT != tot
    requires timeL[s] == None && timeT[s] == None && tot[s] == None
    modifies timeL, timeT, tot
    ensures timeL[s] == l && tot[s] == Tot(l, t, period)
    ensures forall k :: 0 <= k < timeL.Length && k != s ==> timeL[k] == old(timeL[k])
    ensures forall k :: 0 <= k < timeT.Length && k != s ==> timeT[k] == old(timeT[k])
    ensures forall k :: 0 <= k < tot.Length && k != s ==> tot[k] == old(tot[k])
  {
    if l.Some? {
      timeL[s] := l;
    }
    if t.Some? {
      timeT[s] := t;
    }
    if timeT[s].Some? && timeL[s].Some? && timeT[s].value > 0.0 && timeL[s].value > 0.0 {
      var shifted := ShiftTrailing(timeT[s].value, timeL[s].value, period);
      timeT[s] := Some(shifted);
      tot[s] := Some(shifted - timeL[s].value);
    }
  }

  /** Index of element [part][det][ch] in a row-major [nParts][2][4] work array. */
  function Slot(part: nat, det: nat, ch: nat): nat { (part * 2 + det) * 4 + ch }

  /** The channel loop of Exec for item number `part`: its four hit records, channel by
      channel, written through the work arrays. The slots of later items stay NaN. */
  method CalibrateItem(timeL: array<Option<real>>, timeT: array<Option<real>>, tot: array<Option<real>>,
                       part: nat, c: CalData, period: real) returns (hits: seq<HitData>)
    requires period > 0.0 && WellFormed(c)
    requires timeL.Length == timeT.Length == tot.Length >= 8 * part + 8
    requires timeL != timeT && timeL != tot && timeT != tot
    requires forall k :: 8 * part <= k < timeL.Length ==> timeL[k] == None && timeT[k] == None && tot[k] == None
    modifies timeL, timeT, tot
    ensures hits == ItemHits(c, period)
    ensures forall k :: 8 * part + 8 <= k < timeL.Length ==> timeL[k] == None && timeT[k] == None && tot[k] == None
  {
    var iDet := c.detector;
    hits := [];
    for iCha := 0 to 4
      invariant hits == ItemHits(c, period)[..iCha]
      invariant forall k :: Slot(part, iDet - 1, iCha) <= k < timeL.Length ==> timeL[k] == None && timeT[k] == None && tot[k] == None
    {
      var s := Slot(part, iDet - 1, iCha);
      CalibrateChannel(timeL, timeT, tot, s, c.timeL[iCha], c.timeT[iCha], period);
      assert ItemHits(c, period)[..iCha + 1] == ItemHits(c, period)[..iCha] + [HitData(iDet, iCha + 1, timeL[s], tot[s])];
      hits := hits + [HitData(iDet, iCha + 1, timeL[s], tot[s])];
    }
    assert ItemHits(c, period)[..4] == ItemHits(c, period);
  }

  class RoluCal2Hit {
    /** fClockFreq: ns per VFTX clock cycle, 1000 / VFTX_CLOCK_MHZ. */
    const clockFreq: real
    /** fHitItems, the output list of the current event. */
    var hitItems: seq<HitData>
    /** fNofHitItems, the running index into fHitItems. */
    var nofHitItems: nat
    /** Icount, the number of Exec calls. */
    var icount: nat

    ghost predicate Valid()
      reads this
    {
      clockFreq > 0.0 && nofHitItems == |hitItems|
    }

    /** The coarse-counter period in ns, 2048 * fClockFreq. */
    function Period(): real
      reads this
    {
      CoarseCycles * clockFreq
    }

    constructor (vftxClockMHz: real)
      requires vftxClockMHz > 0.0
      ensures Valid()
      ensures clockFreq == 1.0 / vftxClockMHz * 1000.0
      ensures hitItems == [] && icount == 0
    {
      clockFreq := 1.0 / vftxClockMHz * 1000.0;
      hitItems := [];
      nofHitItems := 0;
      icount := 0;
    }

    /** Exec: four hit records per calibrated item appended to the event's list. */
    method Exec(calItems: seq<CalData>)
      requires Valid()
      requires AllWellFormed(calItems)
      modifies this
      ensures Valid()
      ensures hitItems == old(hitItems) + HitsOf(calItems, Period())
      ensures nofHitItems == old(nofHitItems) + NumChannels * |calItems|
      ensures icount == old(icount) + 1
    {
      icount := icount + 1;
      var nParts := |calItems|;
      if nParts < 1 {
        return;
      }
      var period := CoarseCycles * clockFreq;
      var timeL := new Option<real>[nParts * 2 * 4];
      InitArray(timeL, None);
      var timeT := new Option<real>[nParts * 2 * 4];
      InitArray(timeT, None);
      var tot := new Option<real>[nParts * 2 * 4];
      InitArray(tot, None);

      for iPart := 0 to nParts
        invariant Valid() && period == Period() && icount == old(icount) + 1
        invariant hitItems == old(hitItems) + HitsOf(calItems[..iPart], period)
        invariant forall k :: 8 * iPart <= k < timeL.Length ==> timeL[k] == None && timeT[k] == None && tot[k] == None
      {
        var calItem := calItems[iPart];
        var hits := CalibrateItem(timeL, timeT, tot, iPart, calItem, period);
        hitItems := hitItems + hits;
        nofHitItems := nofHitItems + |hits|;
        assert calItems[..iPart + 1] == calItems[..iPart] + [calItem];
        HitsOfAppend(calItems[..iPart], calItem, period);
      }
      assert calItems[..nParts] == calItems;
    }

    /** FinishEvent: the event's hit list is emptied and its counter reset. */
    method FinishEvent()
      requires Valid()
      modifies this
      ensures Valid()
      ensures hitItems == [] && nofHitItems == 0 && icount == old(icount)
    {
      hitItems := [];
      nofHitItems := 0;
    }
  }
}
