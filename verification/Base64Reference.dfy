/**
  What the lenient decoder does with any text: a definition that reads the text as a whole, and the
  proof that the decoder, which goes through it character by character, computes it.
*/
module Base64Reference {
  import opened Wrappers
  import opened Base64Url

  /** The values of the characters that carry data. */
  function Data(s: string): seq<sextet> {
    if s == "" then []
    else
      var n := |s| - 1;
      match Value(s[n])
      case None => Data(s[..n])
      case Some(v) => Data(s[..n]) + [v]
  }

  /** How many `=` come after the last of them. */
  function Pads(s: string): nat {
    if s == "" || Value(s[|s| - 1]).Some? then 0
    else
      var n := |s| - 1;
      Pads(s[..n]) + if s[n] == '=' then 1 else 0
  }

  /** The bytes in groups of six bits; a last group that is not full gives the bytes it holds in full. */
  function Bytes(v: seq<sextet>): seq<byte> {
    if |v| < 2 then []
    else if |v| == 2 then [Join(v[0], v[1])]
    else if |v| == 3 then [Join(v[0], v[1]), Join'(v[1], v[2])]
    else [Join(v[0], v[1]), Join'(v[1], v[2]), Join''(v[2], v[3])] + Bytes(v[4..])
  }

  /** A text whose padding is complete: nothing after it is read. */
  predicate Complete(s: string) {
    && s != "" && s[|s| - 1] == '='
    && |Data(s)| % 4 >= 2 && |Data(s)| % 4 + Pads(s) >= 4
  }

  predicate NoneComplete(s: string) {
    forall j :: 0 <= j <= |s| ==> !Complete(s[..j])
  }

  /** What a text decodes to. */
  predicate Means(s: string, r: Option<seq<byte>>) {
    || (exists i :: 0 <= i <= |s| && Complete(s[..i]) && r == Some(Bytes(Data(s[..i])))
          && forall j :: 0 <= j < i ==> !Complete(s[..j]))
    || (NoneComplete(s) && r == if |Data(s)| % 4 == 0 then Some(Bytes(Data(s))) else None)
  }

  /** The decoder's place after some values and some `=`. */
  function Place(v: seq<sextet>, pads: nat): Group {
    var have := |v| % 4;
    if have == 0 then NewGroup
    else if have == 1 then Group(1, v[|v| - 1], 0)
    else if have == 2 then Group(2, v[|v| - 1] % 16, pads)
    else Group(3, v[|v| - 1] % 4, pads)
  }

  /** The byte that one more value completes. */
  function Completed(v: seq<sextet>, x: sextet): seq<byte> {
    if |v| % 4 == 0 then []
    else if |v| % 4 == 1 then [Join(v[|v| - 1], x)]
    else if |v| % 4 == 2 then [Join'(v[|v| - 1], x)]
    else [Join''(v[|v| - 1], x)]
  }

  lemma {:induction false} BytesSnoc(v: seq<sextet>, x: sextet)
    ensures Bytes(v + [x]) == Bytes(v) + Completed(v, x)
  {
    if |v| < 4 {
      ShortSnoc(v, x);
    } else {
      var front, back := v[..4], v[4..];
      BytesSnoc(back, x);
      assert (v + [x])[..4] == front && (v + [x])[4..] == back + [x];
      FullGroup(v + [x]);
      FullGroup(v);
      SameCompleted(v, x);
      Associates(Bytes(front), Bytes(back), Completed(v, x));
    }
  }

  lemma SameCompleted(v: seq<sextet>, x: sextet)
    requires |v| >= 4
    ensures Completed(v[4..], x) == Completed(v, x)
  {
    assert |v[4..]| % 4 == |v| % 4;
  }

  lemma Associates(a: seq<byte>, b: seq<byte>, c: seq<byte>)
    ensures a + (b + c) == a + b + c
  {
  }

  lemma {:induction false} ShortSnoc(v: seq<sextet>, x: sextet)
    requires |v| < 4
    ensures Bytes(v + [x]) == Bytes(v) + Completed(v, x)
  {
    if |v| == 3 {
      assert v + [x] == [v[0], v[1], v[2], x];
      assert [v[0], v[1], v[2], x][4..] == [];
    }
  }

  lemma {:induction false} FullGroup(v: seq<sextet>)
    requires |v| >= 4
    ensures Bytes(v) == Bytes(v[..4]) + Bytes(v[4..])
  {
    assert v[..4][4..] == [];
  }

  function Followed(before: seq<byte>, r: Option<seq<byte>>): Option<seq<byte>> {
    if r.Some? then Some(before + r.value) else None
  }

  lemma {:induction false} ValueStep(before: string, c: char, rest: string)
    requires Value(c).Some?
    ensures Followed(Bytes(Data(before)), DecodeFrom([c] + rest, Place(Data(before), Pads(before))))
         == Followed(Bytes(Data(before + [c])), DecodeFrom(rest, Place(Data(before + [c]), Pads(before + [c]))))
  {
    var v, x := Data(before), Value(c).value;
    NextData(before, c);
    BytesSnoc(v, x);
    OneValue(v, Pads(before), c, rest);
    var r := DecodeFrom(rest, Place(v + [x], 0));
    if r.Some? {
      Associates(Bytes(v), Completed(v, x), r.value);
    }
  }

  lemma NextPlace(v: seq<sextet>, x: sextet)
    ensures Place(v + [x], 0)
         == if |v| % 4 == 0 then Group(1, x, 0)
            else if |v| % 4 == 1 then Group(2, x % 16, 0)
            else if |v| % 4 == 2 then Group(3, x % 4, 0)
            else NewGroup
  {
    assert (v + [x])[|v|] == x;
    assert (|v| + 1) % 4 == if |v| % 4 == 3 then 0 else |v| % 4 + 1;
  }

  lemma {:induction false} OneValue(v: seq<sextet>, pads: nat, c: char, rest: string)
    requires Value(c).Some?
    ensures DecodeFrom([c] + rest, Place(v, pads))
         == Followed(Completed(v, Value(c).value), DecodeFrom(rest, Place(v + [Value(c).value], 0)))
  {
    var x := Value(c).value;
    NextPlace(v, x);
    assert ([c] + rest)[1..] == rest && c != '=';
    var r := DecodeFrom(rest, Place(v + [x], 0));
    assert r.Some? ==> [] + r.value == r.value;
  }

  lemma {:induction false} NextData(before: string, c: char)
    ensures Data(before + [c]) == if Value(c).Some? then Data(before) + [Value(c).value] else Data(before)
    ensures Pads(before + [c]) == if Value(c).Some? then 0 else Pads(before) + if c == '=' then 1 else 0
  {
    assert (before + [c])[..|before|] == before;
  }

  lemma {:induction false} SkipStep(before: string, c: char, rest: string)
    requires Value(c).None? && !Complete(before + [c])
    ensures DecodeFrom([c] + rest, Place(Data(before), Pads(before)))
         == DecodeFrom(rest, Place(Data(before + [c]), Pads(before + [c])))
    ensures Data(before + [c]) == Data(before)
  {
    NextData(before, c);
    assert ([c] + rest)[1..] == rest;
  }

  lemma {:induction false} LastStep(before: string, c: char, rest: string)
    requires Complete(before + [c])
    ensures DecodeFrom([c] + rest, Place(Data(before), Pads(before))) == Some([])
    ensures Data(before + [c]) == Data(before)
  {
    NextData(before, c);
  }

  lemma {:induction false} MeansComplete(before: string, c: char, rest: string)
    requires NoneComplete(before) && Complete(before + [c])
    ensures Means(before + ([c] + rest), Some(Bytes(Data(before + [c]))))
  {
    var s, i := before + ([c] + rest), |before| + 1;
    assert s[..i] == before + [c];
    forall j | 0 <= j < i
      ensures !Complete(s[..j])
    {
      assert s[..j] == before[..j];
    }
  }

  lemma {:induction false} StillNone(before: string, c: char)
    requires NoneComplete(before) && !Complete(before + [c])
    ensures NoneComplete(before + [c])
  {
    var next := before + [c];
    forall j | 0 <= j <= |next|
      ensures !Complete(next[..j])
    {
      assert next[..j] == if j <= |before| then before[..j] else next;
    }
  }

  /** After a text without a complete padding, the rest of the decoding follows from the place alone. */
  lemma {:induction false} DecodesOn(before: string, rest: string)
    requires NoneComplete(before)
    ensures Means(before + rest, Followed(Bytes(Data(before)), DecodeFrom(rest, Place(Data(before), Pads(before)))))
    decreases |rest|
  {
    if rest == "" {
      assert before + rest == before;
    } else {
      var c, tail := rest[0], rest[1..];
      assert rest == [c] + tail && before + [c] + tail == before + rest;
      if Complete(before + [c]) {
        LastStep(before, c, tail);
        assert Bytes(Data(before)) + [] == Bytes(Data(before));
        MeansComplete(before, c, tail);
      } else {
        StillNone(before, c);
        DecodesOn(before + [c], tail);
        if Value(c).Some? {
          ValueStep(before, c, tail);
        } else {
          SkipStep(before, c, tail);
        }
      }
    }
  }

  lemma {:induction false} FromTheStart(s: string)
    ensures Means(s, DecodeFrom(s, NewGroup))
  {
    DecodesOn("", s);
    var r := DecodeFrom(s, NewGroup);
    assert "" + s == s && Place(Data(""), 0) == NewGroup;
    assert r.Some? ==> [] + r.value == r.value;
  }

  /** Every text, with the padding its length calls for. */
  lemma {:induction false} DecodeMeans(s: string)
    ensures (forall i :: 0 <= i < |s| ==> s[i] as int < 128) ==>
              Means(s + Equals((4 - |s| % 4) % 4), Decode(s))
    ensures (exists i :: 0 <= i < |s| && s[i] as int >= 128) ==> Decode(s) == None
  {
    FromTheStart(s + Equals(PadLength(|s|)));
  }
}
