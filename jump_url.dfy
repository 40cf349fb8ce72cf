/** Message jump URLs and the message id read back from them: the expression
    `int(url.split("/")[-1])` of the uncached delete path. */
module JumpUrl {

  datatype Option<T> = None | Some(value: T)

  predicate IsDigit(c: char) {
    '0' <= c <= '9'
  }

  predicate AllDigits(s: string) {
    forall i :: 0 <= i < |s| ==> IsDigit(s[i])
  }

  function DigitChar(d: nat): (c: char)
    requires d < 10
    ensures IsDigit(c)
  {
    ('0' as int + d) as char
  }

  /** `url.split("/")[-1]`: the text after the last `/`, or the whole string when it has none. */
  function LastSegment(url: string): (seg: string)
    ensures '/' !in seg
    ensures |seg| <= |url|
  {
    if url == [] then []
    else if url[|url| - 1] == '/' then []
    else LastSegment(url[..|url| - 1]) + [url[|url| - 1]]
  }

  /** The segment is a suffix of the URL, preceded by `/` unless it is the whole URL. */
  lemma {:induction false} LastSegmentSuffix(url: string)
    ensures var seg := LastSegment(url);
      && seg == url[|url| - |seg|..]
      && (|seg| < |url| ==> url[|url| - |seg| - 1] == '/')
    decreases |url|
  {
    if url != [] && url[|url| - 1] != '/' {
      var init := url[..|url| - 1];
      LastSegmentSuffix(init);
      assert url == init + [url[|url| - 1]];
    }
  }

  /** Value of a string of decimal digits, most significant first. */
  function DigitsValue(s: string): nat
    requires AllDigits(s)
  {
    if s == [] then 0
    else DigitsValue(s[..|s| - 1]) * 10 + (s[|s| - 1] as int - '0' as int)
  }

  /** Python's `int(s)` restricted to ASCII digit strings: `None` stands for the `ValueError`
      raised on an empty or non-numeric segment. */
  function ParseDecimal(s: string): (r: Option<nat>)
    ensures r.Some? <==> s != [] && AllDigits(s)
  {
    if s != [] && AllDigits(s) then Some(DigitsValue(s)) else None
  }

  /** The message id a stored jump URL refers to. */
  function MessageId(url: string): Option<nat> {
    ParseDecimal(LastSegment(url))
  }

  /** Canonical decimal rendering of a message id (no leading zeros). */
  function Decimal(n: nat): (s: string)
    ensures s != [] && AllDigits(s) && '/' !in s
  {
    if n < 10 then [DigitChar(n)] else Decimal(n / 10) + [DigitChar(n % 10)]
  }

  lemma {:induction false} DecimalValue(n: nat)
    ensures DigitsValue(Decimal(n)) == n
  {
    if n >= 10 {
      DecimalValue(n / 10);
      var s := Decimal(n);
      assert s[..|s| - 1] == Decimal(n / 10);
    }
  }

  /** Parsing the rendering of an id gives the id back. */
  lemma DecimalRoundTrip(n: nat)
    ensures ParseDecimal(Decimal(n)) == Some(n)
  {
    DecimalValue(n);
  }

  lemma {:induction false} LastSegmentAfterSlash(prefix: string, seg: string)
    requires '/' !in seg
    ensures LastSegment(prefix + "/" + seg) == seg
    decreases |seg|
  {
    var url := prefix + "/" + seg;
    if seg != [] {
      var init, c := seg[..|seg| - 1], seg[|seg| - 1];
      assert seg == init + [c];
      assert url == (prefix + "/" + init) + [c];
      assert url[..|url| - 1] == prefix + "/" + init;
      assert c in seg;
      LastSegmentAfterSlash(prefix, init);
      assert LastSegment(url) == LastSegment(url[..|url| - 1]) + [c];
    } else {
      assert url[|url| - 1] == '/';
    }
  }

  /** A jump URL built as `prefix + "/" + decimal(n)` yields `n` back, whatever the prefix holds. */
  lemma JumpUrlId(prefix: string, n: nat)
    ensures MessageId(prefix + "/" + Decimal(n)) == Some(n)
  {
    LastSegmentAfterSlash(prefix, Decimal(n));
    DecimalRoundTrip(n);
  }

  /** Conversely, a URL whose id parses ends in `/` followed by that id's digits (possibly with
      leading zeros), or is nothing but those digits. */
  lemma MessageIdShape(url: string, n: nat)
    requires MessageId(url) == Some(n)
    ensures var seg := LastSegment(url);
      && seg != [] && AllDigits(seg) && DigitsValue(seg) == n
      && (url == seg || (|seg| < |url| && url == url[..|url| - |seg| - 1] + "/" + seg))
  {
    var seg := LastSegment(url);
    LastSegmentSuffix(url);
    if |seg| < |url| {
      assert url == url[..|url| - |seg| - 1] + [url[|url| - |seg| - 1]] + url[|url| - |seg|..];
    }
  }
}
