/** The stream grammar: a TCP byte stream is a sequence of length-prefixed records followed
    by an incomplete one. `Split` is the reference reading of a stream; every reader of this
    project is proved against it. */
module Records {
  import opened Wire

  /** No whole record starts the stream. */
  predicate Incomplete(s: seq<byte>) {
    |s| < 2 || |s| < 2 + Read16(s)
  }

  predicate Sized(records: seq<seq<byte>>) {
    forall r :: r in records ==> |r| < 0x1_0000
  }

  function Join(records: seq<seq<byte>>): seq<byte>
    requires Sized(records)
  {
    if records == [] then [] else Framed(records[0]) + Join(records[1..])
  }

  datatype Parsed = Parsed(records: seq<seq<byte>>, rest: seq<byte>)

  function Split(s: seq<byte>): Parsed {
    if Incomplete(s) then
      Parsed([], s)
    else
      var total := 2 + Read16(s);
      var p := Split(s[total..]);
      Parsed([s[2..total]] + p.records, p.rest)
  }

  lemma SplitIncomplete(s: seq<byte>)
    requires Incomplete(s)
    ensures Split(s) == Parsed([], s)
  {
  }

  /** Nothing of the stream is lost or invented by reading it. */
  lemma {:induction false} SplitJoins(s: seq<byte>)
    ensures var p := Split(s);
            Sized(p.records) && Incomplete(p.rest) && Join(p.records) + p.rest == s
  {
    if !Incomplete(s) {
      var r := s[2..2 + Read16(s)];
      var p := Split(s[2 + Read16(s)..]);
      SplitJoins(s[2 + Read16(s)..]);
      HeadBytes(s);
      JoinCons(r, p.records, p.rest);
    }
  }

  lemma JoinCons(r: seq<byte>, records: seq<seq<byte>>, rest: seq<byte>)
    requires |r| < 0x1_0000 && Sized(records)
    ensures Sized([r] + records) && Join([r] + records) + rest == Framed(r) + (Join(records) + rest)
  {
    assert ([r] + records)[1..] == records;
    Concat3(Framed(r), Join(records), rest);
  }

  lemma Concat3(a: seq<byte>, b: seq<byte>, c: seq<byte>)
    ensures (a + b) + c == a + (b + c)
  {
  }

  lemma HeadBytes(s: seq<byte>)
    requires !Incomplete(s)
    ensures var r := s[2..2 + Read16(s)]; |r| == Read16(s) && s == Framed(r) + s[2 + |r|..]
  {
    assert Be16(Read16(s)) == s[..2];
  }

  lemma {:induction false} JoinAppend(a: seq<seq<byte>>, b: seq<seq<byte>>)
    requires Sized(a) && Sized(b)
    ensures Sized(a + b) && Join(a + b) == Join(a) + Join(b)
  {
    if a == [] {
      assert a + b == b;
    } else {
      assert (a + b)[1..] == a[1..] + b;
      JoinAppend(a[1..], b);
    }
  }

  /** The grammar is unambiguous: any way of writing a stream as whole records followed by
      an incomplete one is the way `Split` reads it. */
  lemma {:induction false} SplitUnique(records: seq<seq<byte>>, rest: seq<byte>)
    requires Sized(records) && Incomplete(rest)
    ensures Split(Join(records) + rest) == Parsed(records, rest)
  {
    var s := Join(records) + rest;
    if records == [] {
      assert s == rest;
    } else {
      var r := records[0];
      assert s == Framed(r) + (Join(records[1..]) + rest);
      assert s[0] == Be16(|r|)[0] && s[1] == Be16(|r|)[1];
      assert Read16(s) == |r|;
      assert s[2..2 + |r|] == r;
      assert s[2 + |r|..] == Join(records[1..]) + rest;
      SplitUnique(records[1..], rest);
      assert records == [r] + records[1..];
    }
  }

  /** Reading a stream in two pieces: the second reading resumes from the leftover. */
  lemma SplitAppend(a: seq<byte>, b: seq<byte>)
    ensures Split(a + b) == Parsed(Split(a).records + Split(Split(a).rest + b).records,
                                   Split(Split(a).rest + b).rest)
  {
    var p, q := Split(a), Split(Split(a).rest + b);
    SplitJoins(a);
    SplitJoins(p.rest + b);
    JoinAppend(p.records, q.records);
    Concat3(Join(p.records), p.rest, b);
    Concat3(Join(p.records), Join(q.records), q.rest);
    SplitUnique(p.records + q.records, q.rest);
  }

  /** A later reading of a growing stream only adds records. */
  lemma SplitPrefix(a: seq<byte>, s: seq<byte>)
    requires a <= s
    ensures Split(a).records <= Split(s).records
  {
    assert s == a + s[|a|..];
    SplitAppend(a, s[|a|..]);
  }
}
