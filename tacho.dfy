/**
 * The tachometer: a hardware counter seen through a direction sign and an
 * offset, so that the count can be re-zeroed without touching the counter.
 * Counter readings (`pbdrv_counter_get_count`, `_get_abs_count`,
 * `_get_rate`) are inputs: each is a value or the driver's error.
 */
module Tacho {
  import opened PbioError
  import opened CInt

  datatype Direction = Clockwise | Counterclockwise

  /** A raw counter value with the configured polarity applied. */
  function Directed(direction: Direction, raw: int): int {
    if direction == Counterclockwise then -raw else raw
  }

  /** `get_count`: the directed reading less the offset, or the counter's error. */
  function Count(direction: Direction, offset: int, reading: Result<int>): (r: Result<int>)
    ensures reading.Err? ==> r == reading
    ensures reading.Ok? ==> r.Ok? && r.value + offset == Directed(direction, reading.value)
  {
    match reading
    case Err(e) => Err(e)
    case Ok(raw) => Ok(Directed(direction, raw) - offset)
  }

  /** `get_rate`: the directed rate reading, with no offset. */
  function Rate(direction: Direction, reading: Result<int>): (r: Result<int>)
    ensures reading.Err? ==> r == reading
    ensures reading.Ok? ==> r == Ok(Directed(direction, reading.value))
    ensures reading.Ok? && direction == Clockwise ==> r == reading
  {
    match reading
    case Err(e) => Err(e)
    case Ok(raw) => Ok(Directed(direction, raw))
  }

  /**
   * `reset_count`: the offset that makes the current reading count as
   * `resetCount`, computed as the source does, by reading the count and
   * adding the old offset back; or the counter's error.
   */
  function ResetOffset(direction: Direction, offset: int, reading: Result<int>, resetCount: int): (r: Result<int>)
    ensures reading.Err? ==> r == reading
    ensures reading.Ok? <==> r.Ok?
  {
    match Count(direction, offset, reading)
    case Err(e) => Err(e)
    case Ok(count) => Ok(count + offset - resetCount)
  }

  /** Reset then read: with the counter unchanged, the count afterwards is the reset value. */
  lemma {:induction false} CountAfterReset(direction: Direction, offset: int, reading: Result<int>, resetCount: int)
    requires reading.Ok?
    ensures ResetOffset(direction, offset, reading, resetCount).Ok?
    ensures Count(direction, ResetOffset(direction, offset, reading, resetCount).value, reading) == Ok(resetCount)
  {
    var c := Count(direction, offset, reading);
    assert c.value + offset == Directed(direction, reading.value);
  }

  /**
   * `get_count` in `int32_t` arithmetic: the negation and the offset
   * subtraction wrap modulo 2^32.
   */
  function WrappedCount(direction: Direction, offset: int, raw: int): (r: int)
    ensures InInt32(r) && Congruent32(r, Directed(direction, raw) - offset)
  {
    var d := Wrap32(Directed(direction, raw));
    CongruentSum(d, Directed(direction, raw), offset, offset);
    Wrap32(d - offset)
  }

  /** `reset_count` in `int32_t` arithmetic: the new offset, with every step wrapping. */
  function WrappedResetOffset(direction: Direction, offset: int, raw: int, resetCount: int): (r: int)
    ensures InInt32(r) && Congruent32(r, Directed(direction, raw) - resetCount)
  {
    var c := WrappedCount(direction, offset, raw);
    var n := Wrap32(c + offset);
    CongruentSum(c, Directed(direction, raw) - offset, offset, offset);
    CongruentSum(n, Directed(direction, raw), resetCount, resetCount);
    Wrap32(n - resetCount)
  }

  /** Reset then read also gives the reset value when every step wraps as `int32_t` does. */
  lemma {:induction false} WrappedCountAfterReset(direction: Direction, offset: int, raw: int, resetCount: int)
    requires InInt32(resetCount)
    ensures WrappedCount(direction, WrappedResetOffset(direction, offset, raw, resetCount), raw) == resetCount
  {
    var o := WrappedResetOffset(direction, offset, raw, resetCount);
    var d := Directed(direction, raw);
    var r := WrappedCount(direction, o, raw);
    assert Congruent32(d - o, resetCount) by {
      CongruentSum(d, d, o, d - resetCount);
      assert d - (d - resetCount) == resetCount;
    }
    CongruentTransitive(r, d - o, resetCount);
    CongruentInRange(r, resetCount);
  }

  /** The new offset is the directed reading less the reset value, whatever the old offset was. */
  lemma {:induction false} ResetOffsetIgnoresOldOffset(direction: Direction, offset: int, offset': int, reading: Result<int>, resetCount: int)
    ensures reading.Ok? ==> ResetOffset(direction, offset, reading, resetCount) == Ok(Directed(direction, reading.value) - resetCount)
    ensures ResetOffset(direction, offset, reading, resetCount) == ResetOffset(direction, offset', reading, resetCount)
  {
    match reading
    case Err(e) =>
    case Ok(raw) =>
      assert Count(direction, offset, reading) == Ok(Directed(direction, raw) - offset);
      assert Count(direction, offset', reading) == Ok(Directed(direction, raw) - offset');
  }

  /** A counter error is passed on unchanged by every operation. */
  lemma CounterErrorPropagates(direction: Direction, offset: int, e: Error, resetCount: int)
    ensures Count(direction, offset, Err(e)) == Err(e)
    ensures ResetOffset(direction, offset, Err(e), resetCount) == Err(e)
    ensures Rate(direction, Err(e)) == Err(e)
  {
  }

  /** Reversing the direction and the offset reverses the count. */
  lemma {:induction false} CountMirrorsDirection(offset: int, raw: int)
    ensures Count(Counterclockwise, -offset, Ok(raw)).value == -Count(Clockwise, offset, Ok(raw)).value
  {
    assert Count(Counterclockwise, -offset, Ok(raw)) == Ok(-raw + offset);
    assert Count(Clockwise, offset, Ok(raw)) == Ok(raw - offset);
  }

  class Tacho {
    /** The counter device found by `pbdrv_counter_get`. */
    var counter: int
    var direction: Direction
    var offset: int
    var countsPerDegree: int
    var countsPerOutputUnit: int

    /** A zero-initialised slot, as the static table holds before setup. */
    constructor ()
      ensures counter == 0 && direction == Clockwise && offset == 0
      ensures countsPerDegree == 0 && countsPerOutputUnit == 0
    {
      counter, direction, offset, countsPerDegree, countsPerOutputUnit := 0, Clockwise, 0, 0, 0;
    }

    /** `get_count` with the counter reading `reading`. */
    method GetCount(reading: Result<int>) returns (err: Outcome, count: int)
      ensures reading.Err? ==> err == Failure(reading.error)
      ensures reading.Ok? ==> err == Success && count == Directed(direction, reading.value) - offset
    {
      if reading.Err? {
        return Failure(reading.error), 0;
      }
      count := reading.value;
      if direction == Counterclockwise {
        count := -count;
      }
      count := count - offset;
      return Success, count;
    }

    /** `get_rate` with the counter rate reading `reading`. */
    method GetRate(reading: Result<int>) returns (err: Outcome, rate: int)
      ensures reading.Err? ==> err == Failure(reading.error)
      ensures reading.Ok? ==> err == Success && rate == Directed(direction, reading.value)
    {
      if reading.Err? {
        return Failure(reading.error), 0;
      }
      rate := reading.value;
      if direction == Counterclockwise {
        rate := -rate;
      }
      return Success, rate;
    }

    /** `reset_count`: re-zero so that the current reading counts as `resetCount`. */
    method ResetCount(reading: Result<int>, resetCount: int) returns (err: Outcome)
      modifies this`offset
      ensures reading.Err? ==> err == Failure(reading.error) && offset == old(offset)
      ensures reading.Ok? ==> err == Success && Ok(offset) == ResetOffset(direction, old(offset), reading, resetCount)
      ensures reading.Ok? ==> Count(direction, offset, reading) == Ok(resetCount)
    {
      var e, countNoOffset := GetCount(reading);
      if e.Failure? {
        return e;
      }
      countNoOffset := countNoOffset + offset;
      CountAfterReset(direction, offset, reading, resetCount);
      offset := countNoOffset - resetCount;
      return Success;
    }

    /**
     * `setup`: validate the scaling factors, store them and the direction,
     * find the counter, and set the offset so that the count starts at the
     * directed absolute count, or at 0 when the counter has none.
     * `counterDevice` is the result of looking up the counter, `fix16Mul`
     * the fixed-point multiplication, the readings those of the counter.
     */
    method Setup(counterDevice: Result<int>, direction: Direction, countsPerDegree: int, gearRatio: int,
                 fix16Mul: (int, int) -> int, absReading: Result<int>, reading: Result<int>) returns (err: Outcome)
      modifies this
      ensures gearRatio < 0 || countsPerDegree < 0 ==> err == Failure(InvalidArg) && unchanged(this)
      ensures gearRatio >= 0 && countsPerDegree >= 0 ==>
        && this.countsPerDegree == countsPerDegree
        && countsPerOutputUnit == fix16Mul(countsPerDegree, gearRatio)
        && this.direction == direction
      ensures gearRatio >= 0 && countsPerDegree >= 0 && counterDevice.Err? ==>
        err == Failure(counterDevice.error) && counter == old(counter) && offset == old(offset)
      ensures gearRatio >= 0 && countsPerDegree >= 0 && counterDevice.Ok? ==>
        && counter == counterDevice.value
        && (reading.Err? ==> err == Failure(reading.error) && offset == old(offset))
        && (reading.Ok? ==>
              && err == Success
              && Count(direction, offset, reading) == Ok(Directed(direction, if absReading.Ok? then absReading.value else 0)))
    {
      if gearRatio < 0 || countsPerDegree < 0 {
        return Failure(InvalidArg);
      }
      this.countsPerDegree := countsPerDegree;
      countsPerOutputUnit := fix16Mul(countsPerDegree, gearRatio);
      this.direction := direction;
      if counterDevice.Err? {
        return Failure(counterDevice.error);
      }
      counter := counterDevice.value;
      var absCount := if absReading.Ok? then absReading.value else 0;
      if direction == Counterclockwise {
        absCount := -absCount;
      }
      err := ResetCount(reading, absCount);
    }
  }

  /**
   * `pbio_tacho_get`: the tacho of a motor port, set up. Ports run from
   * `firstPort` to `firstPort + |tachos| - 1`, one table slot each.
   * `counterDevice` is the result of looking up the counter whose id is
   * the slot index `port - firstPort`.
   */
  method GetTacho(tachos: seq<Tacho>, firstPort: int, port: int, counterDevice: Result<int>, direction: Direction,
                  countsPerDegree: int, gearRatio: int, fix16Mul: (int, int) -> int,
                  absReading: Result<int>, reading: Result<int>) returns (err: Outcome, tacho: Tacho?)
    modifies if firstPort <= port < firstPort + |tachos| then {tachos[port - firstPort]} else {}
    ensures !(firstPort <= port < firstPort + |tachos|) ==> err == Failure(InvalidPort) && tacho == null
    ensures firstPort <= port < firstPort + |tachos| ==> tacho == tachos[port - firstPort]
    ensures firstPort <= port < firstPort + |tachos| && (gearRatio < 0 || countsPerDegree < 0) ==>
      err == Failure(InvalidArg) && unchanged(tachos[port - firstPort])
    ensures firstPort <= port < firstPort + |tachos| && gearRatio >= 0 && countsPerDegree >= 0 ==>
      && tacho.countsPerDegree == countsPerDegree
      && tacho.countsPerOutputUnit == fix16Mul(countsPerDegree, gearRatio)
      && tacho.direction == direction
    ensures firstPort <= port < firstPort + |tachos| && gearRatio >= 0 && countsPerDegree >= 0 && counterDevice.Err? ==>
      err == Failure(counterDevice.error) && tacho.counter == old(tacho.counter) && tacho.offset == old(tacho.offset)
    ensures firstPort <= port < firstPort + |tachos| && gearRatio >= 0 && countsPerDegree >= 0 && counterDevice.Ok? ==>
      && tacho.counter == counterDevice.value
      && (reading.Err? ==> err == Failure(reading.error) && tacho.offset == old(tacho.offset))
      && (reading.Ok? ==>
            && err == Success
            && Count(direction, tacho.offset, reading) == Ok(Directed(direction, if absReading.Ok? then absReading.value else 0)))
  {
    if port < firstPort || port > firstPort + |tachos| - 1 {
      return Failure(InvalidPort), null;
    }
    tacho := tachos[port - firstPort];
    err := tacho.Setup(counterDevice, direction, countsPerDegree, gearRatio, fix16Mul, absReading, reading);
  }
}
