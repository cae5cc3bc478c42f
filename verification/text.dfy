/** The few Python string operations the plate maps rely on:
    `str.strip(chars)`, `str.split(sep)` with an explicit one-character
    separator, and decimal digit strings as read by `int()`. */
module Text {

  /** Every character of `s` belongs to `chars`. */
  predicate AllIn(s: string, chars: set<char>) {
    forall i :: 0 <= i < |s| ==> s[i] in chars
  }

  /** Length of the longest prefix of `s` made of characters in `chars`. */
  function LeadingRun(s: string, chars: set<char>): (n: nat)
    ensures n <= |s|
    ensures AllIn(s[..n], chars)
    ensures n == |s| || s[n] !in chars
  {
    if |s| == 0 || s[0] !in chars then 0
    else
      var n := 1 + LeadingRun(s[1..], chars);
      assert s[..n] == [s[0]] + s[1..][..n - 1];
      n
  }

  /** `LeadingRun` is the only length with its two properties. */
  lemma LeadingRunExact(s: string, chars: set<char>, n: nat)
    requires n <= |s| && AllIn(s[..n], chars)
    requires n == |s| || s[n] !in chars
    ensures LeadingRun(s, chars) == n
  {
  }

  /** Length of the longest suffix of `s` made of characters in `chars`. */
  function TrailingRun(s: string, chars: set<char>): (n: nat)
    ensures n <= |s|
    ensures AllIn(s[|s| - n..], chars)
    ensures n == |s| || s[|s| - n - 1] !in chars
  {
    if |s| == 0 || s[|s| - 1] !in chars then 0
    else
      var init := s[..|s| - 1];
      var n := 1 + TrailingRun(init, chars);
      assert s[|s| - n..] == init[|init| - (n - 1)..] + [s[|s| - 1]];
      n
  }

  /** Python's `s.strip(chars)`: drop every leading and trailing character
      that is in `chars`, keep everything between. */
  function Strip(s: string, chars: set<char>): (r: string)
    ensures |r| <= |s|
    ensures r == [] || (r[0] !in chars && r[|r| - 1] !in chars)
    ensures exists pre, post :: AllIn(pre, chars) && AllIn(post, chars) && s == pre + r + post
  {
    var a := LeadingRun(s, chars);
    var rest := s[a..];
    var t := TrailingRun(rest, chars);
    var b := |rest| - t;
    var r := rest[..b];
    var pre, post := s[..a], rest[b..];
    assert AllIn(pre, chars);
    assert AllIn(post, chars);
    assert s == pre + r + post;
    r
  }

  /** `Strip` removes exactly the outer characters: whatever text sits
      between a run of stripped characters on each side, and does not itself
      start or end with one, is what remains. */
  lemma StripExact(pre: string, body: string, post: string, chars: set<char>)
    requires AllIn(pre, chars) && AllIn(post, chars)
    requires body == [] || (body[0] !in chars && body[|body| - 1] !in chars)
    ensures Strip(pre + body + post, chars) == body
  {
    var s := pre + body + post;
    if body == [] {
      assert AllIn(s, chars);
      assert LeadingRun(s, chars) == |s|;
    } else {
      var a := LeadingRun(s, chars);
      assert s[|pre|] == body[0];
      assert a == |pre|;
      var rest := s[a..];
      assert rest == body + post;
      var t := TrailingRun(rest, chars);
      assert rest[|body| - 1] == body[|body| - 1];
      assert t == |post|;
      assert rest[..|rest| - t] == body;
    }
  }

  /** Python's `"".join` with a one-character glue; the inverse of `Split`. */
  function Join(parts: seq<string>, sep: char): string
  {
    if |parts| == 0 then ""
    else if |parts| == 1 then parts[0]
    else parts[0] + [sep] + Join(parts[1..], sep)
  }

  /** Joining adds no character other than the glue. */
  lemma {:induction false} JoinAvoids(parts: seq<string>, sep: char, c: char)
    requires c != sep
    requires forall i :: 0 <= i < |parts| ==> c !in parts[i]
    ensures c !in Join(parts, sep)
  {
    if |parts| > 1 {
      JoinAvoids(parts[1..], sep, c);
    }
  }

  /** Every character of a piece appears in the joined text. */
  lemma {:induction false} JoinKeeps(parts: seq<string>, sep: char, i: nat)
    requires i < |parts|
    ensures forall c :: c in parts[i] ==> c in Join(parts, sep)
  {
    if |parts| > 1 && i > 0 {
      JoinKeeps(parts[1..], sep, i - 1);
    }
  }

  /** The joined text starts with the first piece ... */
  lemma JoinFirst(parts: seq<string>, sep: char)
    requires |parts| >= 1 && |parts[0]| >= 1
    ensures |Join(parts, sep)| >= 1 && Join(parts, sep)[0] == parts[0][0]
  {
  }

  /** ... and ends with the last. */
  lemma {:induction false} JoinLast(parts: seq<string>, sep: char)
    requires |parts| >= 1 && |parts[|parts| - 1]| >= 1
    ensures |Join(parts, sep)| >= 1
    ensures Join(parts, sep)[|Join(parts, sep)| - 1] == parts[|parts| - 1][|parts[|parts| - 1]| - 1]
  {
    if |parts| > 1 {
      var rest := parts[1..];
      assert rest[|rest| - 1] == parts[|parts| - 1];
      JoinLast(rest, sep);
    }
  }

  /** Python's `s.split(sep)` with an explicit separator: the pieces between
      separators, empty pieces included, and never fewer than one piece. */
  function Split(s: string, sep: char): (r: seq<string>)
    ensures |r| >= 1
    ensures forall i :: 0 <= i < |r| ==> sep !in r[i]
    ensures Join(r, sep) == s
    decreases |s|
  {
    if |s| == 0 then [""]
    else
      var rest := Split(s[1..], sep);
      if s[0] == sep then
        assert s == [sep] + s[1..];
        [""] + rest
      else
        var r := [[s[0]] + rest[0]] + rest[1..];
        assert r[1..] == rest[1..];
        assert s == [s[0]] + s[1..];
        r
  }

  /** Splitting a piece that holds no separator, followed by a separator
      and more text, peels that piece off unchanged. */
  lemma {:induction false} SplitPeel(w: string, sep: char, t: string)
    requires sep !in w
    ensures Split(w + [sep] + t, sep) == [w] + Split(t, sep)
    decreases |w|
  {
    if |w| == 0 {
      assert w + [sep] + t == [sep] + t;
      assert ([sep] + t)[1..] == t;
    } else {
      var s := w + [sep] + t;
      assert s[0] == w[0];
      assert s[1..] == w[1..] + [sep] + t;
      SplitPeel(w[1..], sep, t);
      assert [w[0]] + w[1..] == w;
    }
  }

  /** A piece with no separator splits into itself. */
  lemma {:induction false} SplitWhole(w: string, sep: char)
    requires sep !in w
    ensures Split(w, sep) == [w]
    decreases |w|
  {
    if |w| > 0 {
      SplitWhole(w[1..], sep);
      assert [w[0]] + w[1..] == w;
    }
  }

  /** Round trip: splitting the joined pieces gives the pieces back, as long
      as no piece contains the separator. */
  lemma {:induction false} SplitJoin(parts: seq<string>, sep: char)
    requires |parts| >= 1
    requires forall i :: 0 <= i < |parts| ==> sep !in parts[i]
    ensures Split(Join(parts, sep), sep) == parts
  {
    if |parts| == 1 {
      SplitWhole(parts[0], sep);
    } else {
      SplitJoin(parts[1..], sep);
      SplitPeel(parts[0], sep, Join(parts[1..], sep));
      assert parts == [parts[0]] + parts[1..];
    }
  }

  /** The characters `[0-9]` of a regular expression. */
  const DecimalDigits: set<char> := {'0', '1', '2', '3', '4', '5', '6', '7', '8', '9'}

  function DigitValue(c: char): (d: nat)
    requires c in DecimalDigits
    ensures d < 10
  {
    c as int - '0' as int
  }

  function DigitChar(d: nat): (c: char)
    requires d < 10
    ensures c in DecimalDigits && DigitValue(c) == d
  {
    ('0' as int + d) as char
  }

  /** The number a string of decimal digits denotes, as Python's `int()`
      reads it (leading zeros allowed). */
  function ValueOf(ds: string): nat
    requires AllIn(ds, DecimalDigits)
  {
    if |ds| == 0 then 0
    else ValueOf(ds[..|ds| - 1]) * 10 + DigitValue(ds[|ds| - 1])
  }

  /** The shortest decimal spelling of `n`. */
  function Decimal(n: nat): (r: string)
    ensures |r| >= 1 && AllIn(r, DecimalDigits)
    ensures ValueOf(r) == n
    ensures r[0] == '0' ==> n == 0
  {
    if n < 10 then [DigitChar(n)]
    else
      var r := Decimal(n / 10) + [DigitChar(n % 10)];
      assert r[..|r| - 1] == Decimal(n / 10);
      r
  }
}
