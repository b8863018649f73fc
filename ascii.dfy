/**
 * ASCII text: the strict `str.encode('ascii')` / `bytes.decode('ascii')`
 * pair, and the lossy `decode('ascii', 'ignore')` filter that the
 * authentication handler applies to the serialised upstream payload.
 */
module Ascii {
  import opened Outcomes

  type Byte = b: int | 0 <= b < 256

  predicate IsAscii(c: char) {
    c as int < 128
  }

  predicate AllAscii(s: string) {
    forall i | 0 <= i < |s| :: IsAscii(s[i])
  }

  lemma AllAsciiConcat(a: string, b: string)
    ensures AllAscii(a + b) <==> AllAscii(a) && AllAscii(b)
  {
    if AllAscii(a) && AllAscii(b) {
      forall i | 0 <= i < |a + b| ensures IsAscii((a + b)[i]) {
        if i >= |a| {
          assert (a + b)[i] == b[i - |a|];
        }
      }
    }
    if AllAscii(a + b) {
      forall i | 0 <= i < |a| ensures IsAscii(a[i]) {
        assert (a + b)[i] == a[i];
      }
      forall i | 0 <= i < |b| ensures IsAscii(b[i]) {
        assert (a + b)[|a| + i] == b[i];
      }
    }
  }

  /** `s.encode('ascii')`: one byte per character, or an error on the first non-ASCII one. */
  function EncodeAscii(s: string): (r: Option<seq<Byte>>)
    ensures r.Some? <==> AllAscii(s)
    ensures r.Some? ==> |r.value| == |s| && forall i | 0 <= i < |s| :: r.value[i] == s[i] as int
  {
    if s == [] then Some([])
    else if !IsAscii(s[0]) then None
    else match EncodeAscii(s[1..])
      case None => None
      case Some(rest) => Some([s[0] as int as Byte] + rest)
  }

  /** `b.decode('ascii')`: one character per byte, or an error on a byte of 128 or more. */
  function DecodeAscii(b: seq<Byte>): (r: Option<string>)
    ensures r.Some? <==> forall i | 0 <= i < |b| :: b[i] < 128
    ensures r.Some? ==> |r.value| == |b| && forall i | 0 <= i < |b| :: r.value[i] as int == b[i]
  {
    if b == [] then Some([])
    else if b[0] >= 128 then None
    else match DecodeAscii(b[1..])
      case None => None
      case Some(rest) => Some([b[0] as char] + rest)
  }

  lemma AsciiRoundTrip(s: string)
    requires AllAscii(s)
    ensures DecodeAscii(EncodeAscii(s).value) == Some(s)
  {
    var r := DecodeAscii(EncodeAscii(s).value);
    assert r.Some?;
    assert r.value == s;
  }

  lemma AsciiBytesRoundTrip(b: seq<Byte>)
    requires DecodeAscii(b).Some?
    ensures EncodeAscii(DecodeAscii(b).value) == Some(b)
  {
    var s := DecodeAscii(b).value;
    assert AllAscii(s);
    assert EncodeAscii(s).value == b;
  }

  /** `decode('ascii', 'ignore')`: keep the ASCII characters, drop every other one. */
  function Sanitize(s: string): (r: string)
    ensures AllAscii(r)
    ensures |r| <= |s|
  {
    if s == [] then []
    else (if IsAscii(s[0]) then [s[0]] else []) + Sanitize(s[1..])
  }

  /** The filter works character by character, so it keeps the relative order of what it keeps. */
  lemma {:induction false} SanitizeConcat(a: string, b: string)
    ensures Sanitize(a + b) == Sanitize(a) + Sanitize(b)
    decreases |a|
  {
    if a == [] {
      assert a + b == b;
    } else {
      var ab := a + b;
      assert ab[0] == a[0];
      assert ab[1..] == a[1..] + b;
      SanitizeConcat(a[1..], b);
      var head := if IsAscii(a[0]) then [a[0]] else [];
      calc {
        Sanitize(ab);
        head + Sanitize(a[1..] + b);
        head + (Sanitize(a[1..]) + Sanitize(b));
        (head + Sanitize(a[1..])) + Sanitize(b);
      }
    }
  }

  /** Nothing is dropped exactly when there is nothing non-ASCII to drop. */
  lemma {:induction false} SanitizeIdentity(s: string)
    ensures Sanitize(s) == s <==> AllAscii(s)
    decreases |s|
  {
    if s != [] {
      SanitizeIdentity(s[1..]);
      if !IsAscii(s[0]) {
        // the result is strictly shorter than the input
        assert |Sanitize(s)| == |Sanitize(s[1..])| <= |s| - 1;
      } else if AllAscii(s) {
        assert AllAscii(s[1..]) by {
          forall i | 0 <= i < |s[1..]| ensures IsAscii(s[1..][i]) {
            assert s[1..][i] == s[i + 1];
          }
        }
      }
    }
  }

  lemma SanitizeIdempotent(s: string)
    ensures Sanitize(Sanitize(s)) == Sanitize(s)
  {
    SanitizeIdentity(Sanitize(s));
  }

  /** Every ASCII character occurs as often in the result as in the input; no other occurs. */
  lemma {:induction false} SanitizeCounts(s: string, c: char)
    ensures multiset(Sanitize(s))[c] == if IsAscii(c) then multiset(s)[c] else 0
    decreases |s|
  {
    if s == [] {
    } else {
      SanitizeCounts(s[1..], c);
      assert s == [s[0]] + s[1..];
      assert multiset(s) == multiset([s[0]]) + multiset(s[1..]);
    }
  }
}
