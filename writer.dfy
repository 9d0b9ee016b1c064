/** The deduplicating writer (`write_brightness` in src/bin/writer.rs and the
    identical `wb` in src/bin/xia.displayadaptor.rs). The `libc::write`
    call is represented by the bytes it is given and by its return value,
    which the caller supplies. */
module Writer {
  import opened Base
  import opened Decimal

  type Byte = b: int | 0 <= b < 256

  /** The characters the given bytes stand for (Latin-1, so ASCII text reads
      back unchanged). */
  function Text(b: seq<Byte>): (s: string)
    ensures |s| == |b|
    ensures forall i :: 0 <= i < |b| ==> s[i] as int == b[i]
  {
    if b == [] then [] else [b[0] as char] + Text(b[1..])
  }

  /** The bytes of an ASCII string. */
  function Ascii(s: string): (b: seq<Byte>)
    requires forall i :: 0 <= i < |s| ==> (s[i] as int) < 128
    ensures |b| == |s|
    ensures forall i :: 0 <= i < |s| ==> b[i] == s[i] as int
  {
    if s == [] then [] else [s[0] as int as Byte] + Ascii(s[1..])
  }

  /** What one write sends: `val.to_string()` as a C string, i.e. the
      decimal digits (with a leading `-` if negative) and one NUL byte. */
  function WireBytes(val: int): (b: seq<Byte>)
    ensures 2 <= |b| && b[|b| - 1] == 0
    // no NUL inside the text, so `CString::new` never fails
    ensures forall i :: 0 <= i < |b| - 1 ==> b[i] != 0
    ensures Text(b[..|b| - 1]) == IntToString(val)
  {
    var s := IntToString(val);
    assert forall i :: 0 <= i < |s| ==> s[i] == '-' || IsDigit(s[i]);
    var b := Ascii(s) + [0];
    assert b[..|b| - 1] == Ascii(s);
    b
  }

  /** The text a write sends parses back to the value written. */
  lemma WireBytesRoundTrip(val: int)
    requires InI32(val)
    ensures var b := WireBytes(val); ParseI32(Text(b[..|b| - 1])) == Some(val)
  {
    IntToStringParses(val);
  }

  /** The effect of one `write_brightness` call: the new `last_val` and the
      byte strings handed to `write`. */
  datatype Written = Written(last: int, sent: seq<seq<Byte>>)

  /** `write_brightness(fd, val, &mut last, dbg)`, where `result` is what
      the `write` call returns when it is made. */
  function WriteStep(last: int, val: int, result: int): (o: Written)
    // equal values are skipped entirely
    ensures last == val ==> o == Written(last, [])
    // otherwise exactly one write of the encoded value
    ensures last != val ==> o.sent == [WireBytes(val)]
    // last_val is committed only when the write succeeded
    ensures o.last == val <==> last == val || result >= 0
    ensures o.last == last || o.last == val
  {
    if last == val then Written(last, [])
    else Written(if result < 0 then last else val, [WireBytes(val)])
  }

  /** Two calls in a row with the same value, the first succeeding, perform
      exactly one write (none if the value was already the last one). */
  lemma WriteTwiceWritesOnce(last: int, val: int, r1: int, r2: int)
    requires r1 >= 0
    ensures var o1 := WriteStep(last, val, r1);
            var o2 := WriteStep(o1.last, val, r2);
            |o1.sent| + |o2.sent| == (if last == val then 0 else 1) && o2.last == val
  {
  }

  /** A failed write is not mistaken for success: the next call with the
      same value writes again. */
  lemma FailedWriteIsRetried(last: int, val: int, r1: int, r2: int)
    requires last != val && r1 < 0
    ensures var o1 := WriteStep(last, val, r1);
            o1.last == last && WriteStep(o1.last, val, r2).sent == [WireBytes(val)]
  {
  }

  /** The writer's state: the `last_val` cell the run loops pass by `&mut`,
      and the log of every `write` call made on the brightness file. */
  class BrightnessWriter {
    var lastVal: int
    var sent: seq<seq<Byte>>

    /** `let mut last_val = -1;` */
    constructor ()
      ensures lastVal == -1 && sent == []
    {
      lastVal := -1;
      sent := [];
    }

    /** `write_brightness`. */
    method Write(val: int, result: int)
      modifies this
      ensures lastVal == WriteStep(old(lastVal), val, result).last
      ensures sent == old(sent) + WriteStep(old(lastVal), val, result).sent
    {
      if lastVal == val {
        return;
      }
      var bytes := WireBytes(val);
      sent := sent + [bytes];
      if result >= 0 {
        lastVal := val;
      }
    }
  }
}
