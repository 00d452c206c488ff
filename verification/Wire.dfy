/** The record format both ends of the bridge agree on: big-endian
    `[2B length][4B id][1B flags][1B data length][data]`. A *record* is what follows the
    two length bytes; the encoder produces the length bytes too. */
module Wire {
  import opened Outcomes

  type byte = b: int | 0 <= b < 256

  const ID_RANGE := 0x2000_0000  // x & 0x1FFFFFFF is x modulo this, for negative x too
  const HEADER := 6              // id, flags and data length
  const MAX_DATA := 64
  const FLAG_EXT := 1
  const FLAG_RTR := 2
  const FLAG_FD := 4
  const FLAG_BRS := 8

  /** The arguments of a `can.Message`; absent data is empty data. */
  datatype Message = Message(id: int, ext: bool, rtr: bool, fd: bool, brs: bool, data: seq<byte>)

  function Bit(b: bool, flag: int): int { if b then flag else 0 }

  predicate HasFlag(flags: byte, flag: int)
    requires flag > 0
  {
    flags / flag % 2 == 1
  }

  function Be16(n: int): (s: seq<byte>)
    requires 0 <= n < 0x1_0000
    ensures |s| == 2
  {
    [n / 0x100, n % 0x100]
  }

  function Be32(n: int): (s: seq<byte>)
    requires 0 <= n < 0x1_0000_0000
    ensures |s| == 4
  {
    [n / 0x100_0000, n / 0x1_0000 % 0x100, n / 0x100 % 0x100, n % 0x100]
  }

  function Read16(s: seq<byte>): (n: nat)
    requires |s| >= 2
    ensures n < 0x1_0000
  {
    s[0] as int * 0x100 + s[1] as int
  }

  function Read32(s: seq<byte>): (n: nat)
    requires |s| >= 4
    ensures n < 0x1_0000_0000
  {
    s[0] as int * 0x100_0000 + s[1] as int * 0x1_0000 + s[2] as int * 0x100 + s[3] as int
  }

  lemma Be32RoundTrip(n: int)
    requires 0 <= n < 0x1_0000_0000
    ensures Read32(Be32(n)) == n
  {
    assert n == n / 0x100 * 0x100 + n % 0x100;
    assert n / 0x100 / 0x100 == n / 0x1_0000;
    assert n / 0x1_0000 / 0x100 == n / 0x100_0000;
  }

  lemma Read32RoundTrip(s: seq<byte>)
    requires |s| == 4
    ensures Be32(Read32(s)) == s
  {
    var n := Read32(s);
    assert n / 0x100 == s[0] as int * 0x1_0000 + s[1] as int * 0x100 + s[2] as int;
    assert n / 0x1_0000 == s[0] as int * 0x100 + s[1] as int;
    assert n / 0x100_0000 == s[0];
  }

  function Flags(m: Message, useFd: bool): byte {
    var fd := m.fd || useFd;
    Bit(m.ext, FLAG_EXT) + Bit(m.rtr, FLAG_RTR) + Bit(fd, FLAG_FD) + Bit(fd && m.brs, FLAG_BRS)
  }

  /** The record `frame_from_can` packs for a message of at most 64 bytes. */
  function RecordOf(m: Message, useFd: bool): (rec: seq<byte>)
    requires |m.data| <= MAX_DATA
    ensures |rec| == HEADER + |m.data|
  {
    Be32(m.id % ID_RANGE) + [Flags(m, useFd), |m.data|] + m.data
  }

  function Framed(rec: seq<byte>): seq<byte>
    requires |rec| < 0x1_0000
  {
    Be16(|rec|) + rec
  }

  /** `frame_from_can`: refuses data longer than 64 bytes. */
  function FrameFromCan(m: Message, useFd: bool): Result<seq<byte>> {
    if |m.data| > MAX_DATA then Failure else Success(Framed(RecordOf(m, useFd)))
  }

  /** `can_from_frame`: trailing bytes after the data are ignored, the id is not masked. */
  function CanFromFrame(buf: seq<byte>): Result<Message> {
    if |buf| < HEADER || buf[5] > MAX_DATA || |buf| < HEADER + buf[5] then
      Failure
    else
      Success(Message(Read32(buf),
                      HasFlag(buf[4], FLAG_EXT), HasFlag(buf[4], FLAG_RTR),
                      HasFlag(buf[4], FLAG_FD), HasFlag(buf[4], FLAG_BRS),
                      buf[HEADER..HEADER + buf[5]]))
  }

  /** What survives the wire: the id keeps 29 bits, FD may be forced, BRS needs FD. */
  function Normalise(m: Message, useFd: bool): Message {
    m.(id := m.id % ID_RANGE, fd := m.fd || useFd, brs := (m.fd || useFd) && m.brs)
  }

  lemma FlagsRoundTrip(m: Message, useFd: bool)
    ensures var f := Flags(m, useFd); var n := Normalise(m, useFd);
            HasFlag(f, FLAG_EXT) == n.ext && HasFlag(f, FLAG_RTR) == n.rtr
            && HasFlag(f, FLAG_FD) == n.fd && HasFlag(f, FLAG_BRS) == n.brs
  {
  }

  /** Decoding an encoded message gives its normal form, and the normal form is stable:
      normalising again changes nothing and encodes to the same bytes. */
  lemma RoundTrip(m: Message, useFd: bool)
    requires |m.data| <= MAX_DATA
    ensures CanFromFrame(RecordOf(m, useFd)) == Success(Normalise(m, useFd))
    ensures Normalise(Normalise(m, useFd), useFd) == Normalise(m, useFd)
    ensures RecordOf(Normalise(m, useFd), useFd) == RecordOf(m, useFd)
  {
    var rec := RecordOf(m, useFd);
    assert rec[..4] == Be32(m.id % ID_RANGE);
    assert rec[4] == Flags(m, useFd) && rec[5] == |m.data|;
    assert rec[HEADER..HEADER + |m.data|] == m.data;
    Be32RoundTrip(m.id % ID_RANGE);
    FlagsRoundTrip(m, useFd);
  }

  /** The records `frame_from_can` can produce. */
  predicate Canonical(rec: seq<byte>, useFd: bool) {
    && HEADER <= |rec| && |rec| == HEADER + rec[5] && rec[5] <= MAX_DATA
    && rec[0] < 0x20   // 29-bit id
    && rec[4] < 16     // no unknown flags
    && (useFd ==> HasFlag(rec[4], FLAG_FD))
    && (HasFlag(rec[4], FLAG_BRS) ==> HasFlag(rec[4], FLAG_FD))
  }

  lemma FlagsOf(f: byte, m: Message, useFd: bool)
    requires f < 16 && (useFd ==> HasFlag(f, FLAG_FD)) && (HasFlag(f, FLAG_BRS) ==> HasFlag(f, FLAG_FD))
    requires m.ext == HasFlag(f, FLAG_EXT) && m.rtr == HasFlag(f, FLAG_RTR)
    requires m.fd == HasFlag(f, FLAG_FD) && m.brs == HasFlag(f, FLAG_BRS)
    ensures Flags(m, useFd) == f
  {
  }

  lemma IdOf(rec: seq<byte>)
    requires |rec| >= 4 && rec[0] < 0x20
    ensures Read32(rec) < ID_RANGE && Be32(Read32(rec)) == rec[..4]
  {
    Read32RoundTrip(rec[..4]);
    assert Read32(rec) == Read32(rec[..4]);
  }

  lemma CanonicalReencodes(rec: seq<byte>, useFd: bool)
    requires Canonical(rec, useFd)
    ensures CanFromFrame(rec).Success? && RecordOf(CanFromFrame(rec).value, useFd) == rec
  {
    hide Read32, Be32, Flags, HasFlag;
    var m := CanFromFrame(rec).value;
    IdOf(rec);
    FlagsOf(rec[4], m, useFd);
    assert m.id % ID_RANGE == m.id;
    assert m.data == rec[HEADER..] && |m.data| == rec[5];
    assert rec == rec[..4] + [rec[4], rec[5]] + rec[HEADER..];
  }

  lemma FlagsCanonical(m: Message, useFd: bool)
    ensures Flags(m, useFd) < 16 && (useFd ==> HasFlag(Flags(m, useFd), FLAG_FD))
    ensures HasFlag(Flags(m, useFd), FLAG_BRS) ==> HasFlag(Flags(m, useFd), FLAG_FD)
  {
  }

  /** The canonical records are exactly those that decode and re-encode to themselves. */
  lemma {:induction false} ReencodesIffCanonical(rec: seq<byte>, useFd: bool)
    ensures Canonical(rec, useFd) <==>
            CanFromFrame(rec).Success? && RecordOf(CanFromFrame(rec).value, useFd) == rec
  {
    hide HasFlag, Flags, Read32;
    if Canonical(rec, useFd) {
      CanonicalReencodes(rec, useFd);
    }
    if CanFromFrame(rec).Success? && RecordOf(CanFromFrame(rec).value, useFd) == rec {
      var m := CanFromFrame(rec).value;
      assert rec[4] == Flags(m, useFd) && rec[5] == |m.data|;
      FlagsCanonical(m, useFd);
      assert rec[0] == m.id % ID_RANGE / 0x100_0000 < 0x20;
    }
  }

  // ---- The layout, byte by byte -----------------------------------------------------------

  lemma FlagsAre(m: Message, useFd: bool)
    ensures Flags(m, useFd) == (if m.ext then 1 else 0) + (if m.rtr then 2 else 0)
                               + (if m.fd || useFd then 4 else 0) + (if (m.fd || useFd) && m.brs then 8 else 0)
  {
  }

  /** What `frame_from_can` puts where. */
  lemma RecordLayout(m: Message, useFd: bool)
    ensures FrameFromCan(m, useFd).Success? <==> |m.data| <= 64
    ensures |m.data| <= 64 ==>
              var p := FrameFromCan(m, useFd).value;
              && |p| == 8 + |m.data|
              && p[0] as int * 256 + p[1] as int == 6 + |m.data|
              && p[2] as int * 0x100_0000 + p[3] as int * 0x1_0000 + p[4] as int * 0x100 + p[5] as int
                 == m.id % 0x2000_0000
              && p[6] == (if m.ext then 1 else 0) + (if m.rtr then 2 else 0)
                         + (if m.fd || useFd then 4 else 0) + (if (m.fd || useFd) && m.brs then 8 else 0)
              && p[7] == |m.data|
              && p[8..] == m.data
  {
    if |m.data| <= MAX_DATA {
      hide Be32, Read32, Flags;
      var id := Be32(m.id % ID_RANGE);
      var p := FrameFromCan(m, useFd).value;
      FlagsAre(m, useFd);
      IdBytes(m.id % ID_RANGE);
      assert p[..2] == Be16(HEADER + |m.data|) && p[2..6] == id;
      assert p[2] == id[0] && p[3] == id[1] && p[4] == id[2] && p[5] == id[3];
    }
  }

  lemma IdBytes(n: int)
    requires 0 <= n < 0x1_0000_0000
    ensures var s := Be32(n);
            s[0] as int * 0x100_0000 + s[1] as int * 0x1_0000 + s[2] as int * 0x100 + s[3] as int == n
  {
    Be32RoundTrip(n);
  }

  lemma BitsAre(f: byte)
    ensures HasFlag(f, FLAG_EXT) <==> f % 2 == 1
    ensures HasFlag(f, FLAG_RTR) <==> f % 4 >= 2
    ensures HasFlag(f, FLAG_FD) <==> f % 8 >= 4
    ensures HasFlag(f, FLAG_BRS) <==> f % 16 >= 8
  {
    assert f / 4 == 2 * (f / 8) + f / 4 % 2;
    assert f / 8 == 2 * (f / 16) + f / 8 % 2;
  }

  /** What `can_from_frame` reads from where, and what it refuses. */
  lemma DecodeLayout(r: seq<byte>)
    ensures CanFromFrame(r).Success? <==> 6 <= |r| && r[5] <= 64 && 6 + r[5] as int <= |r|
    ensures CanFromFrame(r).Success? ==>
              var m := CanFromFrame(r).value;
              && m.id == r[0] as int * 0x100_0000 + r[1] as int * 0x1_0000 + r[2] as int * 0x100 + r[3] as int
              && (m.ext <==> r[4] % 2 == 1) && (m.rtr <==> r[4] % 4 >= 2)
              && (m.fd <==> r[4] % 8 >= 4) && (m.brs <==> r[4] % 16 >= 8)
              && m.data == r[6..6 + r[5]]
  {
    hide HasFlag;
    if |r| >= 6 { BitsAre(r[4]); }
  }
}
