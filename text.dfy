/**
 * The two string facilities the colour parser relies on: `str::trim`, which
 * strips Unicode White_Space characters from both ends, and `str::as_bytes`,
 * the UTF-8 encoding of a string.
 */
module Text {

  newtype byte = x: int | 0 <= x < 0x100

  /** `char::is_whitespace`: the Unicode White_Space property. */
  predicate IsWhitespace(c: char) {
    var v := c as int;
    || 0x09 <= v <= 0x0D
    || v == 0x20
    || v == 0x85
    || v == 0xA0
    || v == 0x1680
    || 0x2000 <= v <= 0x200A
    || v == 0x2028
    || v == 0x2029
    || v == 0x202F
    || v == 0x205F
    || v == 0x3000
  }

  predicate AllWhitespace(s: string) {
    forall i | 0 <= i < |s| :: IsWhitespace(s[i])
  }

  function TrimStart(s: string): (r: string)
    ensures |r| <= |s| && r == s[|s| - |r|..]
    ensures |r| > 0 ==> !IsWhitespace(r[0])
    ensures forall k | 0 <= k < |s| - |r| :: IsWhitespace(s[k])
  {
    if |s| > 0 && IsWhitespace(s[0]) then
      var r := TrimStart(s[1..]);
      assert forall k | 1 <= k < |s| - |r| :: s[k] == s[1..][k - 1];
      r
    else s
  }

  function TrimEnd(s: string): (r: string)
    ensures |r| <= |s| && r == s[..|r|]
    ensures |r| > 0 ==> !IsWhitespace(r[|r| - 1])
    ensures forall k | |r| <= k < |s| :: IsWhitespace(s[k])
  {
    if |s| > 0 && IsWhitespace(s[|s| - 1]) then TrimEnd(s[..|s| - 1]) else s
  }

  /** `str::trim`: the infix left once the white space at both ends is removed. */
  function Trim(s: string): (r: string)
    ensures |r| > 0 ==> !IsWhitespace(r[0]) && !IsWhitespace(r[|r| - 1])
  {
    TrimEnd(TrimStart(s))
  }

  lemma TrimIsInfix(s: string)
    ensures var i := |s| - |TrimStart(s)|;
      i + |Trim(s)| <= |s| && forall k | 0 <= k < |Trim(s)| :: Trim(s)[k] == s[i + k]
  {
  }

  lemma TrimLeadingWhitespace(s: string)
    ensures forall k | 0 <= k < |s| - |TrimStart(s)| :: IsWhitespace(s[k])
  {
  }

  lemma TrimTrailingWhitespace(s: string)
    ensures var i := |s| - |TrimStart(s)|;
      i + |Trim(s)| <= |s| && forall k | i + |Trim(s)| <= k < |s| :: IsWhitespace(s[k])
  {
  }

  /** What `trim` removes is white space, from the two ends only. */
  lemma TrimRemovesOnlyWhitespace(s: string)
    ensures var i := |s| - |TrimStart(s)|;
      && i + |Trim(s)| <= |s|
      && (forall k | 0 <= k < |Trim(s)| :: Trim(s)[k] == s[i + k])
      && (forall k | 0 <= k < i :: IsWhitespace(s[k]))
      && (forall k | i + |Trim(s)| <= k < |s| :: IsWhitespace(s[k]))
  {
    TrimIsInfix(s);
    TrimLeadingWhitespace(s);
    TrimTrailingWhitespace(s);
  }

  lemma {:induction false} TrimStartSkipsWhitespace(pre: string, x: string)
    requires AllWhitespace(pre)
    ensures TrimStart(pre + x) == TrimStart(x)
  {
    if pre != [] {
      assert (pre + x)[0] == pre[0];
      assert (pre + x)[1..] == pre[1..] + x;
      TrimStartSkipsWhitespace(pre[1..], x);
    } else {
      assert pre + x == x;
    }
  }

  lemma {:induction false} TrimStartAppendWhitespace(s: string, post: string)
    requires AllWhitespace(s)
    ensures TrimStart(s + post) == TrimStart(post)
  {
    TrimStartSkipsWhitespace(s, post);
  }

  lemma {:induction false} TrimStartAppend(s: string, post: string)
    requires !AllWhitespace(s)
    ensures TrimStart(s + post) == TrimStart(s) + post
  {
    assert s != [];
    assert (s + post)[0] == s[0];
    if IsWhitespace(s[0]) {
      assert (s + post)[1..] == s[1..] + post;
      var i :| 0 <= i < |s| && !IsWhitespace(s[i]);
      assert !IsWhitespace(s[1..][i - 1]);
      TrimStartAppend(s[1..], post);
    }
  }

  lemma {:induction false} TrimEndSkipsWhitespace(x: string, post: string)
    requires AllWhitespace(post)
    ensures TrimEnd(x + post) == TrimEnd(x)
  {
    if post != [] {
      var n := |post| - 1;
      assert (x + post)[..|x + post| - 1] == x + post[..n];
      assert (x + post)[|x + post| - 1] == post[n];
      TrimEndSkipsWhitespace(x, post[..n]);
    } else {
      assert x + post == x;
    }
  }

  /** Blank text is trimmed away entirely. */
  lemma {:induction false} TrimStartBlank(x: string)
    requires AllWhitespace(x)
    ensures TrimStart(x) == []
  {
    if x != [] {
      assert AllWhitespace(x[1..]) by {
        forall k | 0 <= k < |x| - 1 ensures IsWhitespace(x[1..][k]) {
          assert x[1..][k] == x[k + 1];
        }
      }
      TrimStartBlank(x[1..]);
    }
  }

  /** Blank text stays blank between white space: all of it is trimmed away. */
  lemma TrimBlankSurrounded(pre: string, s: string, post: string)
    requires AllWhitespace(pre) && AllWhitespace(s) && AllWhitespace(post)
    ensures Trim(pre + s + post) == Trim(s) == []
  {
    var x := pre + s + post;
    forall i | 0 <= i < |x|
      ensures IsWhitespace(x[i])
    {
      if i < |pre| {
        assert x[i] == pre[i];
      } else if i < |pre| + |s| {
        assert x[i] == s[i - |pre|];
      } else {
        assert x[i] == post[i - |pre| - |s|];
      }
    }
    TrimStartBlank(x);
    TrimStartBlank(s);
  }

  /** White space in front leaves text that is not blank not blank. */
  lemma PrefixKeepsNonBlank(pre: string, s: string)
    requires !AllWhitespace(s)
    ensures !AllWhitespace(pre + s)
  {
    var k :| 0 <= k < |s| && !IsWhitespace(s[k]);
    assert (pre + s)[|pre| + k] == s[k];
  }

  /** Text that is not blank keeps its trim between white space. */
  lemma TrimTextSurrounded(pre: string, s: string, post: string)
    requires AllWhitespace(pre) && !AllWhitespace(s) && AllWhitespace(post)
    ensures Trim(pre + s + post) == Trim(s)
  {
    PrefixKeepsNonBlank(pre, s);
    TrimStartAppend(pre + s, post);
    TrimStartSkipsWhitespace(pre, s);
    TrimEndSkipsWhitespace(TrimStart(s), post);
  }

  /** Surrounding white space never changes what `trim` returns. */
  lemma TrimIgnoresSurroundingWhitespace(pre: string, s: string, post: string)
    requires AllWhitespace(pre) && AllWhitespace(post)
    ensures Trim(pre + s + post) == Trim(s)
  {
    if AllWhitespace(s) {
      TrimBlankSurrounded(pre, s, post);
    } else {
      TrimTextSurrounded(pre, s, post);
    }
  }

  /** A string with no white space at its ends is its own trim. */
  lemma TrimNoop(s: string)
    requires |s| > 0 ==> !IsWhitespace(s[0]) && !IsWhitespace(s[|s| - 1])
    ensures Trim(s) == s
  {
  }

  /** A continuation byte `10xxxxxx` carrying the low six bits of `v`. */
  function ContinuationByte(v: nat): (b: byte)
    ensures b >= 0x80
  {
    (0x80 + v % 0x40) as byte
  }

  /** A leading byte: the length tag `tag` followed by the high bits `v`. */
  function LeadingByte(tag: nat, v: nat): (b: byte)
    requires 0xC0 <= tag && tag + v < 0x100
    ensures b >= 0x80
  {
    (tag + v) as byte
  }

  /** The UTF-8 encoding of one Unicode scalar value. */
  function CharUtf8(c: char): (bs: seq<byte>)
    ensures 1 <= |bs| <= 4
    ensures (c as int < 0x80) <==> |bs| == 1
    ensures c as int < 0x80 ==> bs[0] as int == c as int
    ensures c as int >= 0x80 ==> forall j | 0 <= j < |bs| :: bs[j] >= 0x80
  {
    var v: nat := c as int;
    if v < 0x80 then [v as byte]
    else if v < 0x800 then
      [LeadingByte(0xC0, v / 0x40), ContinuationByte(v)]
    else if v < 0x1_0000 then
      [LeadingByte(0xE0, v / 0x1000), ContinuationByte(v / 0x40), ContinuationByte(v)]
    else
      assert v / 0x4_0000 <= 4;
      [LeadingByte(0xF0, v / 0x4_0000), ContinuationByte(v / 0x1000),
       ContinuationByte(v / 0x40), ContinuationByte(v)]
  }

  /** `str::as_bytes`: the UTF-8 encoding of a string. */
  function Utf8(s: string): (bs: seq<byte>)
    ensures |bs| >= |s|
  {
    if s == [] then [] else CharUtf8(s[0]) + Utf8(s[1..])
  }

  predicate IsAscii(c: char) {
    c as int < 0x80
  }

  predicate AllAscii(s: string) {
    forall i | 0 <= i < |s| :: IsAscii(s[i])
  }

  /** On ASCII text the encoding is the identity on code points. */
  lemma {:induction false} Utf8Ascii(s: string)
    requires AllAscii(s)
    ensures |Utf8(s)| == |s|
    ensures forall i | 0 <= i < |s| :: Utf8(s)[i] as int == s[i] as int
  {
    if s != [] {
      Utf8Ascii(s[1..]);
      forall i | 0 <= i < |s|
        ensures Utf8(s)[i] as int == s[i] as int
      {
        if i > 0 { assert Utf8(s)[i] == Utf8(s[1..])[i - 1]; }
      }
    }
  }

  /** A non-ASCII character leaves a byte of value 0x80 or more in the encoding. */
  lemma {:induction false} Utf8NonAscii(s: string, k: nat)
    requires k < |s| && !IsAscii(s[k])
    ensures exists j :: 0 <= j < |Utf8(s)| && Utf8(s)[j] >= 0x80
  {
    if k == 0 {
      assert Utf8(s)[0] == CharUtf8(s[0])[0];
    } else {
      Utf8NonAscii(s[1..], k - 1);
      var j :| 0 <= j < |Utf8(s[1..])| && Utf8(s[1..])[j] >= 0x80;
      assert Utf8(s)[|CharUtf8(s[0])| + j] == Utf8(s[1..])[j];
    }
  }
}
