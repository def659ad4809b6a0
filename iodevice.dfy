/**
 * The scripting layer's helpers over an I/O device: type-id and mode
 * checks, and the conversion between a device's raw data buffer and the
 * integer values a script sees. A data format is a number of elements and
 * an element type; element i of an 8-, 16- or 32-bit type sits at byte
 * offset i, 2i or 4i, little-endian like the hub's processor.
 *
 * The device driver is not modelled: its data buffer, its data format and
 * the outcome of reading them are inputs, and the bytes a write would hand
 * to it are the output.
 */
module IODevice {
  import opened CInt
  import opened PbioError

  /** The part of `pbio_iodev_info_t` read here. */
  datatype Info = Info(typeId: int)

  /** An I/O device: its info, absent when no device is attached, and its current mode. */
  datatype IODev = IODev(info: Option<Info>, mode: Byte)

  /** `pb_iodevice_get_type_id`: the type id, or `NoDev` with the output left as it was. */
  function GetTypeId(dev: IODev, id: int): (r: (Outcome, int))
    ensures dev.info.None? ==> r == (Failure(NoDev), id)
    ensures dev.info.Some? ==> r == (Success, dev.info.value.typeId)
  {
    if dev.info.None? then (Failure(NoDev), id) else (Success, dev.info.value.typeId)
  }

  /** `pb_iodevice_assert_type_id`: `NoDev` unless a device of exactly this type is attached. */
  function AssertTypeId(dev: IODev, typeId: int): (r: Outcome)
    ensures r == Success <==> dev.info.Some? && dev.info.value.typeId == typeId
    ensures r != Success ==> r == Failure(NoDev)
  {
    if dev.info.None? || dev.info.value.typeId != typeId then Failure(NoDev) else Success
  }

  /** `pb_iodevice_get_mode`: always succeeds with the stored mode. */
  function GetMode(dev: IODev): (r: (Outcome, Byte))
    ensures r.0 == Success && r.1 == dev.mode
  {
    (Success, dev.mode)
  }

  /** What `pb_iodevice_set_mode` does: nothing, or ask the driver for the new mode. */
  datatype SetModeAction = AlreadyInMode | Request(mode: Byte)

  function SetMode(dev: IODev, newMode: Byte): (r: SetModeAction)
    ensures r == AlreadyInMode <==> dev.mode == newMode
    ensures r.Request? ==> r.mode == newMode
  {
    if dev.mode == newMode then AlreadyInMode else Request(newMode)
  }

  /** The two checks agree: asserting a type succeeds exactly when reading the type gives it. */
  lemma {:induction false} AssertAgreesWithGet(dev: IODev, typeId: int, id: int)
    ensures AssertTypeId(dev, typeId) == Success <==> GetTypeId(dev, id) == (Success, typeId)
  {
    var g := GetTypeId(dev, id);
    var a := AssertTypeId(dev, typeId);
    if dev.info.None? {
      assert g.0 == Failure(NoDev) && a == Failure(NoDev);
    } else {
      assert g == (Success, dev.info.value.typeId);
    }
  }

  /** Setting the mode just read, or setting a mode once it has taken effect, asks nothing of the driver. */
  lemma {:induction false} SetModeIdempotent(dev: IODev, newMode: Byte)
    ensures SetMode(dev, GetMode(dev).1) == AlreadyInMode
    ensures SetMode(dev.(mode := newMode), newMode) == AlreadyInMode
  {
    assert GetMode(dev).1 == dev.mode;
    assert dev.(mode := newMode).mode == newMode;
  }

  // ---------------------------------------------------------------------
  // Element codec
  // ---------------------------------------------------------------------

  datatype DataType = Int8 | Int16 | Int32 | Float | Unknown

  predicate IsInteger(t: DataType) {
    t == Int8 || t == Int16 || t == Int32
  }

  /** The number of bytes an element takes. */
  function Width(t: DataType): nat {
    match t
    case Int8 => 1
    case Int16 => 2
    case Int32 => 4
    case Float => 4
    case Unknown => 0
  }

  /** Byte offset of element i: i, 2i or 4i. */
  function Offset(t: DataType, i: nat): nat {
    match t
    case Int8 => i
    case Int16 => 2 * i
    case Int32 => 4 * i
    case Float => 4 * i
    case Unknown => 0
  }

  /** A data format: the number of elements and their type. */
  datatype Format = Format(len: Byte, dtype: DataType)

  /** `int16_t` from two little-endian bytes. */
  function DecodeInt16(b0: Byte, b1: Byte): (r: int)
    ensures -0x8000 <= r < 0x8000
    ensures (r - ((b0 as int) + 0x100 * (b1 as int))) % 0x1_0000 == 0
  {
    var u: int := (b0 as int) + 0x100 * (b1 as int);
    if u >= 0x8000 then u - 0x1_0000 else u
  }

  /** `int32_t` from four little-endian bytes. */
  function DecodeInt32(b0: Byte, b1: Byte, b2: Byte, b3: Byte): (r: int)
    ensures InInt32(r)
    ensures (r - ((b0 as int) + 0x100 * (b1 as int) + 0x1_0000 * (b2 as int) + 0x100_0000 * (b3 as int))) % UINT32_MODULUS == 0
  {
    var u: int := (b0 as int) + 0x100 * (b1 as int) + 0x1_0000 * (b2 as int) + 0x100_0000 * (b3 as int);
    if u >= 0x8000_0000 then u - UINT32_MODULUS else u
  }

  /**
   * One element from its bytes, as the read path converts it. An 8-bit
   * element is read as an unsigned buffer byte, so it is never
   * negative.
   */
  function DecodeElement(t: DataType, bytes: seq<Byte>): (r: int)
    requires IsInteger(t) && |bytes| == Width(t)
    ensures t == Int8 ==> 0 <= r < 0x100
    ensures t == Int16 ==> -0x8000 <= r < 0x8000
    ensures InInt32(r)
  {
    match t
    case Int8 => bytes[0]
    case Int16 => DecodeInt16(bytes[0], bytes[1])
    case Int32 => DecodeInt32(bytes[0], bytes[1], bytes[2], bytes[3])
  }

  /**
   * One element's bytes, as the write path stores an `int`: reduced
   * modulo 2^8, 2^16 or 2^32 (the GCC conversion to a narrower type),
   * least significant byte first.
   */
  function EncodeElement(t: DataType, v: int): (r: seq<Byte>)
    requires IsInteger(t)
    ensures |r| == Width(t)
  {
    match t
    case Int8 => [v % 0x100]
    case Int16 => LittleEndian16(v % 0x1_0000)
    case Int32 => LittleEndian32(v % UINT32_MODULUS)
  }

  function LittleEndian16(u: int): seq<Byte>
    requires 0 <= u < 0x1_0000
  {
    [u % 0x100, u / 0x100]
  }

  function LittleEndian32(u: int): seq<Byte>
    requires 0 <= u < UINT32_MODULUS
  {
    var u1 := u / 0x100;
    var u2 := u1 / 0x100;
    [u % 0x100, u1 % 0x100, u2 % 0x100, u2 / 0x100]
  }

  /** Whether a buffer holds all n elements of type t. */
  predicate Fits(t: DataType, n: nat, size: nat) {
    Offset(t, n) <= size
  }

  /** Element i of a buffer. */
  function Element(data: seq<Byte>, t: DataType, i: nat): int
    requires IsInteger(t) && Fits(t, i + 1, |data|)
  {
    DecodeElement(t, data[Offset(t, i)..Offset(t, i + 1)])
  }

  /** The first n elements of a buffer. */
  function Decoded(data: seq<Byte>, t: DataType, n: nat): (r: seq<int>)
    requires IsInteger(t) && Fits(t, n, |data|)
    ensures |r| == n
    ensures forall i :: 0 <= i < n ==> r[i] == Element(data, t, i)
  {
    seq(n, i requires 0 <= i < n => Element(data, t, i))
  }

  /** The bytes of a sequence of elements, one after the other. */
  function Encoded(items: seq<int>, t: DataType): (r: seq<Byte>)
    requires items != [] ==> IsInteger(t)
    ensures |r| == Offset(t, |items|)
  {
    if items == [] then []
    else
      OffsetNext(t, |items| - 1);
      Encoded(items[..|items| - 1], t) + EncodeElement(t, items[|items| - 1])
  }

  /** The encoding has one width per element, and element i's bytes at element i's offset. */
  lemma EncodedAt(items: seq<int>, t: DataType)
    requires IsInteger(t)
    ensures |Encoded(items, t)| == Offset(t, |items|)
    ensures forall i :: 0 <= i < |items| ==>
      Encoded(items, t)[Offset(t, i)..Offset(t, i + 1)] == EncodeElement(t, items[i])
  {
    forall i | 0 <= i < |items|
      ensures Encoded(items, t)[Offset(t, i)..Offset(t, i + 1)] == EncodeElement(t, items[i])
    {
      EncodedIndex(items, t, i);
    }
  }

  lemma {:induction false} EncodedIndex(items: seq<int>, t: DataType, i: nat)
    requires IsInteger(t) && i < |items|
    ensures Offset(t, i + 1) <= |Encoded(items, t)|
    ensures Encoded(items, t)[Offset(t, i)..Offset(t, i + 1)] == EncodeElement(t, items[i])
  {
    var n := |items| - 1;
    var front := items[..n];
    var f, last := Encoded(front, t), EncodeElement(t, items[n]);
    assert Encoded(items, t) == f + last;
    OffsetNext(t, n);
    if i == n {
      SliceOfRight(f, last);
    } else {
      EncodedIndex(front, t, i);
      assert front[i] == items[i];
      OffsetMonotone(t, i, i + 1);
      SliceOfLeft(f, last, Offset(t, i), Offset(t, i + 1));
    }
  }

  /** A slice of a concatenation that lies within its left part. */
  lemma SliceOfLeft<T>(x: seq<T>, y: seq<T>, lo: int, hi: int)
    requires 0 <= lo <= hi <= |x|
    ensures (x + y)[lo..hi] == x[lo..hi]
  {
  }

  /** The right part of a concatenation, sliced back out. */
  lemma SliceOfRight<T>(x: seq<T>, y: seq<T>)
    ensures (x + y)[|x|..|x| + |y|] == y
  {
  }

  lemma OffsetNext(t: DataType, i: nat)
    ensures Offset(t, i + 1) == Offset(t, i) + Width(t)
  {
  }

  lemma {:induction false} OffsetMonotone(t: DataType, i: nat, j: nat)
    requires i <= j
    ensures Offset(t, i) <= Offset(t, j)
  {
    match t
    case Int8 =>
    case Int16 =>
    case Int32 =>
    case Float =>
    case Unknown =>
  }

  /** Range of the C `int16_t`. */
  predicate InInt16(v: int) {
    -0x8000 <= v < 0x8000
  }

  /** Decoding the encoding of one in-range 16- or 32-bit element, or of a byte value, gives it back. */
  lemma {:induction false} ElementRoundTrip(t: DataType, v: int)
    requires IsInteger(t)
    requires t == Int8 ==> 0 <= v < 0x100
    requires t == Int16 ==> InInt16(v)
    requires t == Int32 ==> InInt32(v)
    ensures DecodeElement(t, EncodeElement(t, v)) == v
  {
    match t
    case Int8 =>
    case Int16 => Int16RoundTrip(v);
    case Int32 => Int32RoundTrip(v);
  }

  lemma {:induction false} Int16RoundTrip(v: int)
    requires InInt16(v)
    ensures var b := LittleEndian16(v % 0x1_0000); DecodeInt16(b[0], b[1]) == v
  {
    var u := v % 0x1_0000;
    var b := LittleEndian16(u);
    assert (b[0] as int) + 0x100 * (b[1] as int) == u;
    if v >= 0 {
      assert u == v;
    } else {
      assert u == v + 0x1_0000;
    }
  }

  lemma {:induction false} Int32RoundTrip(v: int)
    requires InInt32(v)
    ensures var b := LittleEndian32(v % UINT32_MODULUS); DecodeInt32(b[0], b[1], b[2], b[3]) == v
  {
    var u := v % UINT32_MODULUS;
    var b := LittleEndian32(u);
    var u1 := u / 0x100;
    var u2 := u1 / 0x100;
    assert u == b[0] as int + 0x100 * u1;
    assert u1 == (b[1] as int) + 0x100 * u2;
    assert u2 == (b[2] as int) + 0x100 * (b[3] as int);
    assert (b[0] as int) + 0x100 * (b[1] as int) + 0x1_0000 * (b[2] as int) + 0x100_0000 * (b[3] as int) == u;
    if v >= 0 {
      assert u == v;
    } else {
      assert u == v + UINT32_MODULUS;
    }
  }

  /** All in-range elements survive a write followed by a read. */
  lemma {:induction false} RoundTrip(items: seq<int>, t: DataType)
    requires IsInteger(t)
    requires forall i :: 0 <= i < |items| ==>
      (t == Int8 ==> 0 <= items[i] < 0x100) && (t == Int16 ==> InInt16(items[i])) && (t == Int32 ==> InInt32(items[i]))
    ensures Fits(t, |items|, |Encoded(items, t)|)
    ensures Decoded(Encoded(items, t), t, |items|) == items
  {
    EncodedAt(items, t);
    var e := Encoded(items, t);
    forall i | 0 <= i < |items| ensures Element(e, t, i) == items[i] {
      ElementRoundTrip(t, items[i]);
    }
  }

  /**
   * No negative 8-bit value survives: v is written as the byte v + 256
   * and read back unsigned as v + 256 (so -1 reads back as 255).
   */
  lemma NegativeInt8ReadsBackUnsigned(v: int)
    requires -0x80 <= v < 0
    ensures Encoded([v], Int8) == [v + 0x100]
    ensures Decoded(Encoded([v], Int8), Int8, 1) == [v + 0x100]
    ensures Decoded(Encoded([v], Int8), Int8, 1) != [v]
  {
    assert Encoded([v], Int8) == Encoded([], Int8) + [v % 0x100];
  }

  // ---------------------------------------------------------------------
  // Reading and writing values
  // ---------------------------------------------------------------------

  /** What a script receives: nothing, one value, or a tuple of at least two. */
  datatype Values = NoValue | Single(value: int) | Tuple(items: seq<int>)

  /** No elements give nothing, one element gives itself, more give a tuple of all of them. */
  function Pack(vals: seq<int>): (r: Values)
    ensures r == NoValue <==> |vals| == 0
    ensures r.Single? <==> |vals| == 1
    ensures r.Single? ==> r.value == vals[0]
    ensures r.Tuple? ==> |vals| > 1 && r.items == vals
  {
    if |vals| == 0 then NoValue else if |vals| == 1 then Single(vals[0]) else Tuple(vals)
  }

  /** What reading a buffer in a format gives, in a build without floating point. */
  function ValuesOf(data: seq<Byte>, f: Format): (r: Result<Values>)
    requires IsInteger(f.dtype) ==> Fits(f.dtype, f.len, |data|)
    ensures r.Ok? <==> f.len == 0 || IsInteger(f.dtype)
    ensures r.Ok? ==> (r.value == NoValue <==> f.len == 0) && (r.value.Single? <==> f.len == 1)
    ensures r.Ok? && f.len > 0 ==> r.value == Pack(Decoded(data, f.dtype, f.len))
    ensures r.Err? ==> r.error == (if f.dtype == Float then NotSupported else NotImplemented)
  {
    if f.len == 0 then Ok(NoValue)
    else if f.dtype == Float then Err(NotSupported)
    else if f.dtype == Unknown then Err(NotImplemented)
    else Ok(Pack(Decoded(data, f.dtype, f.len)))
  }

  /** The driver's buffer holds every element the format announces. */
  predicate Readable(data: Result<seq<Byte>>, format: Result<Format>) {
    data.Ok? && format.Ok? && IsInteger(format.value.dtype) ==>
      Fits(format.value.dtype, format.value.len, |data.value|)
  }

  /**
   * One case of the read loop's switch: the element type read from
   * element i's first byte on, which is element i of the buffer.
   */
  function ReadElement(d: seq<Byte>, t: DataType, i: nat): (r: int)
    requires IsInteger(t) && Fits(t, i + 1, |d|)
    ensures r == Element(d, t, i)
  {
    match t
    case Int8 => d[i]
    case Int16 => DecodeInt16(d[2 * i], d[2 * i + 1])
    case Int32 => DecodeInt32(d[4 * i], d[4 * i + 1], d[4 * i + 2], d[4 * i + 3])
  }

  /**
   * `pb_iodevice_get_values`: the driver's data and format, or the first
   * of their errors; then the values, converted one element at a time.
   */
  method GetValues(data: Result<seq<Byte>>, format: Result<Format>) returns (r: Result<Values>)
    requires Readable(data, format)
    ensures data.Err? ==> r == Err(data.error)
    ensures data.Ok? && format.Err? ==> r == Err(format.error)
    ensures data.Ok? && format.Ok? ==> r == ValuesOf(data.value, format.value)
  {
    if data.Err? {
      return Err(data.error);
    }
    if format.Err? {
      return Err(format.error);
    }
    var d, len, t := data.value, format.value.len, format.value.dtype;
    if len == 0 {
      return Ok(NoValue);
    }
    var values := new int[len];
    var i := 0;
    while i < len
      invariant 0 <= i <= len
      invariant i > 0 ==> IsInteger(t) && Fits(t, i, |d|)
      invariant forall j :: 0 <= j < i ==> values[j] == Element(d, t, j)
    {
      if t == Float {
        return Err(NotSupported);
      } else if t == Unknown {
        return Err(NotImplemented);
      }
      OffsetMonotone(t, i + 1, len);
      values[i] := ReadElement(d, t, i);
      i := i + 1;
    }
    assert values[..] == Decoded(d, t, len);
    return Ok(Pack(values[..]));
  }

  /** The argument of a write: one integer, a list or tuple of integers, or anything else. */
  datatype Arg = Integer(value: int) | Sequence(items: seq<int>) | Other

  /**
   * The elements to write: a lone integer stands for a one-element
   * format; otherwise the argument must be a sequence of exactly the
   * format's length (a `TypeError` or `ValueError`, `InvalidArg` here).
   */
  function ItemsOf(arg: Arg, len: nat): (r: Result<seq<int>>)
    ensures r.Ok? <==> (len == 1 && arg.Integer?) || (arg.Sequence? && |arg.items| == len)
    ensures r.Ok? ==> |r.value| == len
    ensures r.Ok? && arg.Sequence? ==> r.value == arg.items
    ensures r.Err? ==> r.error == InvalidArg
  {
    if len == 1 && arg.Integer? then Ok([arg.value])
    else if arg.Sequence? && |arg.items| == len then Ok(arg.items)
    else Err(InvalidArg)
  }

  /**
   * The bytes a write hands to the driver, in a build without floating
   * point. An element that does not fit a machine `int` overflows
   * (`InvalidArg` here).
   */
  function BytesOf(f: Format, arg: Arg): (r: Result<seq<Byte>>)
    ensures ItemsOf(arg, f.len).Err? ==> r == Err(InvalidArg)
    ensures r.Ok? ==> |r.value| == Offset(f.dtype, f.len)
  {
    match ItemsOf(arg, f.len)
    case Err(e) => Err(e)
    case Ok(items) => EncodingOf(items, f.dtype)
  }

  /** The bytes of the elements, or the error of the first one that cannot be stored. */
  function EncodingOf(items: seq<int>, t: DataType): (r: Result<seq<Byte>>)
    ensures r.Ok? <==> items == [] || (IsInteger(t) && forall i :: 0 <= i < |items| ==> InInt32(items[i]))
    ensures r.Ok? ==> |r.value| == Offset(t, |items|)
  {
    if items == [] then Ok([])
    else if t == Float then Err(NotSupported)
    else if t == Unknown then Err(NotImplemented)
    else if exists i :: 0 <= i < |items| && !InInt32(items[i]) then Err(InvalidArg)
    else Ok(Encoded(items, t))
  }

  /**
   * Writing a list of in-range 16- or 32-bit values and reading the
   * buffer back in the same format gives the script what it wrote.
   */
  lemma {:induction false} SetThenGetValues(f: Format, items: seq<int>)
    requires f.dtype == Int16 || f.dtype == Int32
    requires |items| == f.len
    requires forall i :: 0 <= i < |items| ==> (f.dtype == Int16 ==> InInt16(items[i])) && InInt32(items[i])
    ensures BytesOf(f, Sequence(items)) == Ok(Encoded(items, f.dtype))
    ensures Fits(f.dtype, f.len, |Encoded(items, f.dtype)|)
    ensures ValuesOf(Encoded(items, f.dtype), f) == Ok(Pack(items))
  {
    RoundTrip(items, f.dtype);
    assert ItemsOf(Sequence(items), f.len) == Ok(items);
    if items == [] {
      assert Encoded(items, f.dtype) == [];
    } else {
      assert !exists i :: 0 <= i < |items| && !InInt32(items[i]);
    }
  }

  /**
   * `pb_iodevice_set_values`: the format's error, or the encoding of the
   * argument, built one element at a time into the data buffer.
   */
  method SetValues(format: Result<Format>, arg: Arg) returns (r: Result<seq<Byte>>)
    ensures format.Err? ==> r == Err(format.error)
    ensures format.Ok? ==> r == BytesOf(format.value, arg)
  {
    if format.Err? {
      return Err(format.error);
    }
    var len, t := format.value.len, format.value.dtype;
    var items: seq<int>;
    if len == 1 && arg.Integer? {
      items := [arg.value];
    } else if arg.Sequence? && |arg.items| == len {
      items := arg.items;
    } else {
      return Err(InvalidArg);
    }
    r := EncodeItems(items, t);
  }

  /** The loop of `pb_iodevice_set_values`: store the elements one at a time into the data buffer. */
  method EncodeItems(items: seq<int>, t: DataType) returns (r: Result<seq<Byte>>)
    ensures r == EncodingOf(items, t)
  {
    var len := |items|;
    var data := new Byte[Offset(t, len)];
    var i := 0;
    while i < len
      invariant 0 <= i <= len
      invariant i > 0 ==> IsInteger(t)
      invariant forall j :: 0 <= j < i ==> InInt32(items[j])
      invariant data[..Offset(t, i)] == Encoded(items[..i], t)
    {
      if t == Float {
        return Err(NotSupported);
      } else if t == Unknown {
        return Err(NotImplemented);
      }
      if !InInt32(items[i]) {
        return Err(InvalidArg);
      }
      StoreElement(data, t, i, items[i]);
      EncodedStep(items, t, i);
      OffsetMonotone(t, i + 1, len);
      i := i + 1;
    }
    assert items[..len] == items;
    assert data[..] == data[..Offset(t, len)];
    return Ok(data[..]);
  }

  /**
   * One case of the write loop's switch: store `v` as element i, the
   * bytes before it untouched.
   */
  method StoreElement(data: array<Byte>, t: DataType, i: nat, v: int)
    requires IsInteger(t) && Offset(t, i + 1) <= data.Length
    modifies data
    ensures data[..Offset(t, i + 1)] == old(data[..Offset(t, i)]) + EncodeElement(t, v)
  {
    match t
    case Int8 =>
      data[i] := v % 0x100;
    case Int16 =>
      var u := v % 0x1_0000;
      data[2 * i], data[2 * i + 1] := u % 0x100, u / 0x100;
    case Int32 =>
      var u := v % UINT32_MODULUS;
      var u1 := u / 0x100;
      var u2 := u1 / 0x100;
      data[4 * i], data[4 * i + 1], data[4 * i + 2], data[4 * i + 3] := u % 0x100, u1 % 0x100, u2 % 0x100, u2 / 0x100;
  }

  /** Appending one element's bytes extends the encoding of a prefix by one element. */
  lemma {:induction false} EncodedStep(items: seq<int>, t: DataType, i: nat)
    requires IsInteger(t) && i < |items|
    ensures Encoded(items[..i + 1], t) == Encoded(items[..i], t) + EncodeElement(t, items[i])
  {
    assert items[..i + 1][..i] == items[..i];
  }
}
