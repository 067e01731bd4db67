/** Where the SDK's single fetch goes. The client appends the flag name to the URL as it is, and the sidecar reads
    the decoded path segment, so the flag that is asked for need not be the one that was named. A string here is a
    sequence of bytes, one character for each. */
module FlagPaths {
  import opened Results
  import opened Sequences
  import opened Text

  function HexValue(c: char): Option<int> {
    if '0' <= c <= '9' then Some(c as int - '0' as int)
    else if 'a' <= c <= 'f' then Some(c as int - 'a' as int + 10)
    else if 'A' <= c <= 'F' then Some(c as int - 'A' as int + 10)
    else None
  }

  function Prepend(p: string, rest: Option<string>): Option<string> {
    match rest case None => None case Some(r) => Some(p + r)
  }

  /** Percent decoding; an incomplete or malformed escape makes the URL invalid. */
  function Unescape(s: string): (r: Option<string>)
    ensures r.Some? ==> |r.value| <= |s| && (r.value == s <==> '%' !in s)
    ensures '%' !in s ==> r == Some(s)
  {
    if s == "" then Some("")
    else if s[0] != '%' then Prepend([s[0]], Unescape(s[1..]))
    else if |s| < 3 || HexValue(s[1]).None? || HexValue(s[2]).None? then None
    else Prepend([(16 * HexValue(s[1]).value + HexValue(s[2]).value) as char], Unescape(s[3..]))
  }

  predicate HasControl(s: string) {
    exists i :: 0 <= i < |s| && (s[i] < ' ' || s[i] == 127 as char)
  }

  /** `NoAnswer`: the request fails, or the answer is no JSON object. `OtherPath`: the path has more than one segment or
      is not in clean form, so it is served elsewhere or redirected. */
  datatype Target = NoAnswer | SingleFlag(name: string) | OtherPath

  /** The fragment is cut off first, then the query. "stream" is the route of the event stream. */
  function TargetOf(name: string): Target {
    var h := IndexOf(name, '#');
    var url := name[..h];
    var fragment := if h < |name| then name[h + 1..] else "";
    var segment := url[..IndexOf(url, '?')];
    var decoded := Unescape(segment);
    if HasControl(url) || decoded.None? || Unescape(fragment).None? then NoAnswer
    else if '/' in segment || segment == "." || segment == ".." then OtherPath
    else if decoded.value == "" || decoded.value == "stream" then NoAnswer
    else SingleFlag(decoded.value)
  }

  /** A name that is its own path segment. */
  predicate PlainName(name: string) {
    '?' !in name && '#' !in name && '%' !in name && '/' !in name && name != "." && name != ".."
  }

  /** A fetch that is answered at all asks for the named flag exactly when the name is plain. */
  lemma PlainIffOwnPath(name: string)
    requires TargetOf(name) != NoAnswer
    ensures TargetOf(name) == SingleFlag(name) <==> PlainName(name)
  {
    var h := IndexOf(name, '#');
    var url := name[..h];
    var q := IndexOf(url, '?');
    if PlainName(name) {
      assert h == |name| && url == name;
      assert q == |name| && url[..q] == name;
    }
    if TargetOf(name) == SingleFlag(name) {
      assert |url[..q]| == |name|;
      assert url == name && url[..q] == name;
    }
  }

  lemma PrependTwice(a: string, b: string, o: Option<string>)
    ensures Prepend(a, Prepend(b, o)) == Prepend(a + b, o)
  {
    if o.Some? { Regroup(a, b, o.value); }
  }

  lemma UnescapeHead(c: char, s: string)
    requires c != '%'
    ensures Unescape([c] + s) == Prepend([c], Unescape(s))
  {
    assert ([c] + s)[1..] == s;
  }

  lemma {:induction false} UnescapeAfter(p: string, s: string)
    requires '%' !in p
    ensures Unescape(p + s) == Prepend(p, Unescape(s))
  {
    if p == "" {
      assert p + s == s;
      assert Unescape(s).Some? ==> p + Unescape(s).value == Unescape(s).value;
    } else {
      var c, rest := p[0], p[1..];
      assert p == [c] + rest;
      UnescapeAfter(rest, s);
      Regroup([c], rest, s);
      UnescapeHead(c, rest + s);
      PrependTwice([c], rest, Unescape(s));
    }
  }

  predicate LegalText(s: string) {
    '?' !in s && '#' !in s && '%' !in s && '/' !in s && !HasControl(s)
  }

  lemma NoSpecials(a: string, b: string)
    requires LegalText(a) && LegalText(b)
    ensures var name := a + "%2D" + b;
      '?' !in name && '#' !in name && '/' !in name && !HasControl(name)
  {
  }

  lemma UnescapeDash(b: string)
    requires '%' !in b
    ensures Unescape("%2D" + b) == Some("-" + b)
  {
    var tail := "%2D" + b;
    assert tail[0] == '%' && tail[1] == '2' && tail[2] == 'D' && tail[3..] == b;
    assert Unescape(tail) == Prepend("-", Unescape(b));
  }

  lemma UnescapeAround(a: string, b: string)
    requires '%' !in a && '%' !in b
    ensures Unescape(a + "%2D" + b) == Some(a + "-" + b)
  {
    Regroup(a, "%2D", b);
    Regroup(a, "-", b);
    UnescapeDash(b);
    UnescapeAfter(a, "%2D" + b);
  }

  /** A dash can be written as an escape: the fetch under the escaped name asks for the flag with the dash. */
  lemma EscapedDash(a: string, b: string)
    requires LegalText(a) && LegalText(b)
    ensures TargetOf(a + "%2D" + b) == SingleFlag(a + "-" + b) && !PlainName(a + "%2D" + b)
  {
    var name := a + "%2D" + b;
    NoSpecials(a, b);
    assert IndexOf(name, '#') == |name| && name[..|name|] == name && IndexOf(name, '?') == |name|;
    UnescapeAround(a, b);
    assert name[|a|] == '%';
    NotStream(a, b);
  }

  lemma NotStream(a: string, b: string)
    ensures a + "-" + b != "stream" && a + "-" + b != ""
  {
    assert (a + "-" + b)[|a|] == '-';
    assert '-' !in "stream";
  }

  lemma DarkModeText()
    ensures "dark" + "%2D" + "mode" == "dark%2Dmode" && "dark" + "-" + "mode" == "dark-mode"
    ensures LegalText("dark") && LegalText("mode")
  {
  }

  lemma EscapedDarkMode()
    ensures TargetOf("dark%2Dmode") == SingleFlag("dark-mode") && !PlainName("dark%2Dmode")
  {
    DarkModeText();
    EscapedDash("dark", "mode");
  }

  /** A name with a slash leaves the route of single flags. */
  lemma SlashLeavesTheRoute(name: string)
    requires '/' in name && '?' !in name && '#' !in name && TargetOf(name) != NoAnswer
    ensures TargetOf(name) == OtherPath
  {
    assert IndexOf(name, '#') == |name| && name[..|name|] == name && IndexOf(name, '?') == |name|;
  }

  // ---- The parts of a URL -----------------------------------------------------------------

  lemma FirstAt(a: string, c: char, b: string)
    requires c !in a
    ensures IndexOf(a + [c] + b, c) == |a| && (a + [c] + b)[..|a|] == a && (a + [c] + b)[|a| + 1..] == b
    ensures IndexOf(a, c) == |a| && a[..|a|] == a
  {
    var s := a + [c] + b;
    assert s[|a|] == c && forall j | 0 <= j < |a| :: s[j] == a[j];
  }

  /** A fragment is not sent; but if it holds a malformed escape, nothing is. */
  lemma FragmentIsCut(a: string, fragment: string)
    requires '#' !in a
    ensures TargetOf(a + "#" + fragment) == if Unescape(fragment) == None then NoAnswer else TargetOf(a)
  {
    FirstAt(a, '#', fragment);
    assert Unescape("") == Some("");
  }

  /** A query does not change which flag is asked for. */
  lemma QueryIsCut(a: string, query: string)
    requires '?' !in a && '#' !in a && '#' !in query && !HasControl(a) && !HasControl(query)
    ensures TargetOf(a + "?" + query) == TargetOf(a)
  {
    var name := a + "?" + query;
    FirstAt(a, '?', query);
    assert IndexOf(name, '#') == |name| && name[..|name|] == name;
    assert IndexOf(a, '#') == |a|;
    forall i | 0 <= i < |name| ensures !(name[i] < ' ' || name[i] == 127 as char) {
      if i < |a| { assert name[i] == a[i]; }
      if i > |a| { assert name[i] == query[i - |a| - 1]; }
    }
  }

  lemma ControlFails(name: string)
    requires '#' !in name && HasControl(name)
    ensures TargetOf(name) == NoAnswer
  {
    assert IndexOf(name, '#') == |name| && name[..|name|] == name;
  }

  const UPPER_DIGITS := "0123456789ABCDEF"
  const LOWER_DIGITS := "0123456789abcdef"

  lemma DigitsHaveValues(n: nat)
    requires n < 16
    ensures HexValue(UPPER_DIGITS[n]) == Some(n) && HexValue(LOWER_DIGITS[n]) == Some(n)
  {
  }

  /** Exactly the hexadecimal digits have values. */
  lemma OnlyDigitsHaveValues(c: char)
    ensures HexValue(c).Some? ==> c in UPPER_DIGITS || c in LOWER_DIGITS
  {
    if HexValue(c).Some? {
      var n := HexValue(c).value;
      assert UPPER_DIGITS[n] == c || LOWER_DIGITS[n] == c;
    }
  }

  /** An escape of two digits is the byte that they spell. */
  lemma EscapeIsByte(n: nat, rest: string)
    requires n < 256
    ensures Unescape("%" + [UPPER_DIGITS[n / 16], UPPER_DIGITS[n % 16]] + rest) == Prepend([n as char], Unescape(rest))
    ensures Unescape("%" + [LOWER_DIGITS[n / 16], LOWER_DIGITS[n % 16]] + rest) == Prepend([n as char], Unescape(rest))
  {
    DigitsHaveValues(n / 16);
    DigitsHaveValues(n % 16);
    EscapeOf(UPPER_DIGITS[n / 16], UPPER_DIGITS[n % 16], rest);
    EscapeOf(LOWER_DIGITS[n / 16], LOWER_DIGITS[n % 16], rest);
  }

  /** Any other text behind a percent sign makes the URL invalid. */
  lemma EscapeOf(high: char, low: char, rest: string)
    ensures Unescape("%" + [high, low] + rest) ==
      if HexValue(high).Some? && HexValue(low).Some?
      then Prepend([(16 * HexValue(high).value + HexValue(low).value) as char], Unescape(rest)) else None
    ensures Unescape("%" + [high]) == None && Unescape("%") == None
  {
    var s := "%" + [high, low] + rest;
    assert s[0] == '%' && s[1] == high && s[2] == low && s[3..] == rest;
  }
}
