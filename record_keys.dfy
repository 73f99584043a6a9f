/**
 * The per-record-type key function that the rrdatas diff suppressor applies
 * to every record before comparing two lists (the `parseFunc` closure).
 */
module RecordKeys {

  /** ASCII lower-casing of one character. */
  function LowerChar(c: char): char {
    if 'A' <= c <= 'Z' then (c as int + 32) as char else c
  }

  /** `strings.ToLower`, restricted to ASCII letters. */
  function ToLower(s: string): (r: string) {
    seq(|s|, i requires 0 <= i < |s| => LowerChar(s[i]))
  }

  predicate AllQuotes(s: string) {
    forall i | 0 <= i < |s| :: s[i] == '"'
  }

  /** `n` double-quote characters. */
  function Quotes(n: nat): (q: string)
    ensures |q| == n && AllQuotes(q)
  {
    seq(n, i => '"')
  }

  /** Strips every leading `"`: the result is the suffix that follows the run of quotes. */
  function TrimLeftQuotes(s: string): (r: string)
    ensures |r| <= |s| && r == s[|s| - |r|..]
    ensures AllQuotes(s[..|s| - |r|])
    ensures r == [] || r[0] != '"'
  {
    if |s| > 0 && s[0] == '"' then TrimLeftQuotes(s[1..]) else s
  }

  /** Strips every trailing `"`: the result is the prefix before the run of quotes. */
  function TrimRightQuotes(s: string): (r: string)
    ensures |r| <= |s| && r == s[..|r|]
    ensures AllQuotes(s[|r|..])
    ensures r == [] || r[|r| - 1] != '"'
  {
    if |s| > 0 && s[|s| - 1] == '"' then TrimRightQuotes(s[..|s| - 1]) else s
  }

  /** `strings.Trim(s, "\"")`: leading quotes first, then trailing ones. */
  function Trim(s: string): string {
    TrimRightQuotes(TrimLeftQuotes(s))
  }

  /**
   * The key of a record of type `rtype` (resource_dns_record_set.go:28-40).
   * `ipKey` stands for `net.ParseIP(record).String()`, which is not modelled.
   */
  function Normalize(rtype: string, record: string, ipKey: string -> string): string {
    if rtype == "AAAA" then ipKey(record)
    else if rtype == "MX" || rtype == "DS" then ToLower(record)
    else if rtype == "TXT" then ToLower(Trim(record))
    else record
  }

  /** The record types whose key ignores letter case. */
  predicate CaseInsensitiveType(rtype: string) {
    rtype == "MX" || rtype == "DS" || rtype == "TXT"
  }

  // ---------------------------------------------------------------------------
  // Properties of the pieces

  lemma ToLowerIdempotent(s: string)
    ensures ToLower(ToLower(s)) == ToLower(s)
  {
  }

  /** `Trim` removes exactly a run of quotes on each side and leaves none at either end. */
  lemma TrimSplits(s: string)
    ensures var r := Trim(s);
      && (r == [] || (r[0] != '"' && r[|r| - 1] != '"'))
      && exists i, j :: 0 <= i <= j <= |s| && s[i..j] == r && AllQuotes(s[..i]) && AllQuotes(s[j..])
  {
    var l := TrimLeftQuotes(s);
    var r := TrimRightQuotes(l);
    var i := |s| - |l|;
    var j := i + |r|;
    assert r == [] || r[0] == l[0];
    assert s[i..j] == r by {
      assert l == s[i..];
    }
    assert AllQuotes(s[j..]) by {
      assert s[j..] == l[|r|..];
    }
    assert AllQuotes(s[..i]);
  }

  lemma TrimLeftNoQuote(s: string)
    requires s == [] || s[0] != '"'
    ensures TrimLeftQuotes(s) == s
  {
  }

  lemma TrimRightNoQuote(s: string)
    requires s == [] || s[|s| - 1] != '"'
    ensures TrimRightQuotes(s) == s
  {
  }

  lemma {:induction false} TrimIdempotent(s: string)
    ensures Trim(Trim(s)) == Trim(s)
  {
    var r := Trim(s);
    TrimSplits(s);
    TrimLeftNoQuote(r);
    TrimRightNoQuote(r);
  }

  /** Leading quotes make no difference to `TrimLeftQuotes`. */
  lemma {:induction false} TrimLeftAbsorbs(n: nat, s: string)
    ensures TrimLeftQuotes(Quotes(n) + s) == TrimLeftQuotes(s)
  {
    if n > 0 {
      assert (Quotes(n) + s)[1..] == Quotes(n - 1) + s;
      TrimLeftAbsorbs(n - 1, s);
    } else {
      assert Quotes(n) + s == s;
    }
  }

  /** Trailing quotes make no difference to `TrimRightQuotes`. */
  lemma {:induction false} TrimRightAbsorbs(s: string, m: nat)
    ensures TrimRightQuotes(s + Quotes(m)) == TrimRightQuotes(s)
  {
    if m > 0 {
      assert (s + Quotes(m))[..|s| + m - 1] == s + Quotes(m - 1);
      TrimRightAbsorbs(s, m - 1);
    } else {
      assert s + Quotes(m) == s;
    }
  }

  /** Trailing quotes survive `TrimLeftQuotes` unless the whole string is quotes. */
  lemma {:induction false} TrimLeftAppend(s: string, m: nat)
    ensures AllQuotes(s) ==> TrimLeftQuotes(s + Quotes(m)) == []
    ensures !AllQuotes(s) ==> TrimLeftQuotes(s + Quotes(m)) == TrimLeftQuotes(s) + Quotes(m)
  {
    if |s| == 0 {
      assert s + Quotes(m) == Quotes(m) + [];
      TrimLeftAbsorbs(m, []);
    } else {
      assert (s + Quotes(m))[1..] == s[1..] + Quotes(m);
      TrimLeftAppend(s[1..], m);
      if s[0] == '"' {
        assert AllQuotes(s) <==> AllQuotes(s[1..]);
      }
    }
  }

  lemma {:induction false} AllQuotesTrimRight(s: string)
    requires AllQuotes(s)
    ensures TrimRightQuotes(s) == []
  {
    if |s| > 0 {
      AllQuotesTrimRight(s[..|s| - 1]);
    }
  }

  /** Surrounding quotes of any length make no difference to `Trim`. */
  lemma TrimIgnoresSurroundingQuotes(n: nat, s: string, m: nat)
    ensures Trim(Quotes(n) + s + Quotes(m)) == Trim(s)
  {
    assert Quotes(n) + s + Quotes(m) == Quotes(n) + (s + Quotes(m));
    TrimLeftAbsorbs(n, s + Quotes(m));
    TrimLeftAppend(s, m);
    if AllQuotes(s) {
      AllQuotesTrimRight(TrimLeftQuotes(s));
    } else {
      TrimRightAbsorbs(TrimLeftQuotes(s), m);
    }
  }

  /** Lower-casing never creates or removes a quote, so it commutes with `Trim`. */
  lemma {:induction false} TrimLeftLower(s: string)
    ensures TrimLeftQuotes(ToLower(s)) == ToLower(TrimLeftQuotes(s))
  {
    if |s| > 0 {
      assert ToLower(s)[1..] == ToLower(s[1..]);
      TrimLeftLower(s[1..]);
    }
  }

  lemma {:induction false} TrimRightLower(s: string)
    ensures TrimRightQuotes(ToLower(s)) == ToLower(TrimRightQuotes(s))
  {
    if |s| > 0 {
      assert ToLower(s)[..|s| - 1] == ToLower(s[..|s| - 1]);
      TrimRightLower(s[..|s| - 1]);
    }
  }

  lemma TrimLower(s: string)
    ensures Trim(ToLower(s)) == ToLower(Trim(s))
  {
    TrimLeftLower(s);
    TrimRightLower(TrimLeftQuotes(s));
  }

  // ---------------------------------------------------------------------------
  // Properties of the key function

  /** Applying the key function to a key changes nothing, for every type but AAAA. */
  lemma NormalizeIdempotent(rtype: string, record: string, ipKey: string -> string)
    requires rtype != "AAAA"
    ensures Normalize(rtype, Normalize(rtype, record, ipKey), ipKey) == Normalize(rtype, record, ipKey)
  {
    if rtype == "TXT" {
      var t := Trim(record);
      TrimLower(t);
      TrimIdempotent(record);
      ToLowerIdempotent(t);
    }
  }

  /** MX, DS and TXT keys do not depend on letter case. */
  lemma CaseInsensitiveKeys(rtype: string, a: string, b: string, ipKey: string -> string)
    requires CaseInsensitiveType(rtype)
    requires ToLower(a) == ToLower(b)
    ensures Normalize(rtype, a, ipKey) == Normalize(rtype, b, ipKey)
  {
    if rtype == "TXT" {
      TrimLower(a);
      TrimLower(b);
    }
  }

  /** TXT keys do not depend on the quotes around the text. */
  lemma TxtIgnoresQuotes(n: nat, text: string, m: nat, ipKey: string -> string)
    ensures Normalize("TXT", Quotes(n) + text + Quotes(m), ipKey) == Normalize("TXT", text, ipKey)
  {
    TrimIgnoresSurroundingQuotes(n, text, m);
  }

  /** Every other type except AAAA compares records verbatim. */
  lemma VerbatimKeys(rtype: string, a: string, b: string, ipKey: string -> string)
    requires rtype != "AAAA" && !CaseInsensitiveType(rtype)
    ensures Normalize(rtype, a, ipKey) == Normalize(rtype, b, ipKey) <==> a == b
  {
  }

  lemma TxtKey(record: string, ipKey: string -> string)
    ensures Normalize("TXT", record, ipKey) == ToLower(Trim(record))
  {
  }

  lemma FooLetters()
    ensures ToLower("Foo") == "foo" && ToLower("foo") == "foo"
  {
    assert LowerChar('F') == 'f' && LowerChar('f') == 'f' && LowerChar('o') == 'o';
    assert ToLower("Foo") == [LowerChar('F'), LowerChar('o'), LowerChar('o')];
    assert ToLower("foo") == [LowerChar('f'), LowerChar('o'), LowerChar('o')];
  }

  lemma FooUnquoted()
    ensures Trim("Foo") == "Foo" && Trim("foo") == "foo"
  {
    TrimLeftNoQuote("Foo");
    TrimRightNoQuote("Foo");
    TrimLeftNoQuote("foo");
    TrimRightNoQuote("foo");
  }

  /** `"\"Foo\""` and `"foo"` get the same TXT key. */
  lemma TxtExample(ipKey: string -> string)
    ensures Normalize("TXT", "\"Foo\"", ipKey) == Normalize("TXT", "foo", ipKey) == "foo"
  {
    assert "\"Foo\"" == Quotes(1) + "Foo" + Quotes(1) by {
      assert Quotes(1) == ['"'];
    }
    TxtIgnoresQuotes(1, "Foo", 1, ipKey);
    TxtKey("Foo", ipKey);
    TxtKey("foo", ipKey);
    FooUnquoted();
    FooLetters();
  }
}
