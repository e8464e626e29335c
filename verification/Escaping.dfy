/**
  String replacement as the projection layer uses it, and what it does to the reminder delimiters.
 */
module Escaping {

  /** `str::replace`: non-overlapping matches from the left. */
  function Replace(s: string, pat: string, rep: string): string
    requires pat != ""
  {
    if s == "" then ""
    else if pat <= s then rep + Replace(s[|pat|..], pat, rep)
    else [s[0]] + Replace(s[1..], pat, rep)
  }

  /** Occurrences of `pat` in `s`, overlapping ones included. */
  function Count(s: string, pat: string): nat
    requires pat != ""
  {
    if s == "" then 0 else (if pat <= s then 1 else 0) + Count(s[1..], pat)
  }

  const OPEN := "<system-reminder"
  const CLOSE := "</system-reminder"

  /** A delimiter: one `<`, at its head, and no character that escaping writes first. */
  predicate IsDelimiter(p: string)
  {
    p != "" && p[0] == '<' && '<' !in p[1..] && '&' !in p && '\n' !in p
  }

  lemma DelimitersAre()
    ensures IsDelimiter(OPEN) && IsDelimiter(CLOSE)
  {
    assert OPEN[1..] == "system-reminder";
    assert CLOSE[1..] == "/system-reminder";
  }

  // ----- counting -----------------------------------------------------------------------------

  lemma {:induction false} CountSkips(a: string, b: string, p: string)
    requires IsDelimiter(p) && '<' !in a
    ensures Count(a + b, p) == Count(b, p)
  {
    if a == "" {
      assert a + b == b;
    } else {
      assert (a + b)[1..] == a[1..] + b;
      assert (a + b)[0] == a[0];
      CountSkips(a[1..], b, p);
    }
  }

  lemma CountNone(a: string, p: string)
    requires IsDelimiter(p) && '<' !in a
    ensures Count(a, p) == 0
  {
    CountSkips(a, "", p);
    assert a + "" == a;
  }

  /** No occurrence spans a character that the delimiter does not have. */
  lemma {:induction false} CountSplits(a: string, c: char, b: string, p: string)
    requires IsDelimiter(p) && c !in p
    ensures Count(a + [c] + b, p) == Count(a, p) + Count(b, p)
  {
    var s := a + [c] + b;
    if a == "" {
      assert s == [c] + b && s[1..] == b;
      PrefixChars(p, s);
    } else {
      assert s[1..] == a[1..] + [c] + b;
      CountSplits(a[1..], c, b, p);
      PrefixStopsAt(a, c, b, p);
    }
  }

  lemma PrefixStopsAt(a: string, c: char, b: string, p: string)
    requires c !in p
    ensures p <= a + [c] + b <==> p <= a
  {
    var s := a + [c] + b;
    PrefixChars(p, s);
    PrefixChars(p, a);
    assert s[|a|] == c && forall i :: 0 <= i < |a| ==> s[i] == a[i];
  }

  lemma PrefixChars(p: string, s: string)
    ensures p <= s <==> |p| <= |s| && forall i :: 0 <= i < |p| ==> p[i] == s[i]
  {
  }

  // ----- escaping untrusted text --------------------------------------------------------------

  /** A stretch without `<` and `&` at the head of a replaced text was there before. */
  lemma {:induction false} PlainPrefixPasses(t: string, s: string, q: string, rep: string)
    requires IsDelimiter(q) && rep != "" && rep[0] == '&'
    requires '<' !in t && '&' !in t && t <= Replace(s, q, rep)
    ensures t <= s
  {
    var r := Replace(s, q, rep);
    if t != "" {
      assert r[0] == t[0];
      assert !(q <= s);
      assert r[1..] == Replace(s[1..], q, rep);
      assert t[1..] <= r[1..];
      PlainPrefixPasses(t[1..], s[1..], q, rep);
      assert t == [t[0]] + t[1..] && s == [s[0]] + s[1..];
    }
  }

  /** A delimiter at the head of a replaced text, where nothing was replaced, was there before. */
  lemma HeadPasses(s: string, q: string, rep: string, p: string)
    requires IsDelimiter(q) && IsDelimiter(p) && rep != "" && rep[0] == '&'
    requires s != "" && !(q <= s) && p <= Replace(s, q, rep)
    ensures p <= s
  {
    var r, later := Replace(s, q, rep), Replace(s[1..], q, rep);
    assert r == [s[0]] + later && r[1..] == later;
    assert p[1..] <= later;
    PlainPrefixPasses(p[1..], s[1..], q, rep);
    assert p == [p[0]] + p[1..] && s == [s[0]] + s[1..] && s[0] == r[0] == p[0];
  }

  /** Replacing `q` creates no occurrence of any delimiter `p`, and leaves none of `q`. */
  lemma {:induction false} ReplaceRemoves(s: string, q: string, rep: string, p: string)
    requires IsDelimiter(q) && IsDelimiter(p)
    requires rep != "" && rep[0] == '&' && '<' !in rep
    requires p == q || Count(s, p) == 0
    ensures Count(Replace(s, q, rep), p) == 0
    decreases |s|
  {
    if s != "" {
      if q <= s {
        CountDropsTo(s, |q|, p);
        ReplaceRemoves(s[|q|..], q, rep, p);
        CountSkips(rep, Replace(s[|q|..], q, rep), p);
      } else {
        var r := Replace(s, q, rep);
        var later := Replace(s[1..], q, rep);
        assert r == [s[0]] + later && r[1..] == later;
        ReplaceRemoves(s[1..], q, rep, p);
        if p <= r { HeadPasses(s, q, rep, p); }
      }
    }
  }

  lemma {:induction false} CountDropsTo(s: string, n: nat, p: string)
    requires p != "" && n <= |s|
    ensures Count(s[n..], p) <= Count(s, p)
  {
    if n > 0 {
      CountDropsTo(s[1..], n - 1, p);
      assert s[1..][n - 1..] == s[n..];
    } else {
      assert s[0..] == s;
    }
  }

  /** `escape_untrusted_reminder_delimiters`. */
  function EscapeDelimiters(s: string): string
  {
    Replace(Replace(s, OPEN, "&lt;system-reminder"), CLOSE, "&lt;/system-reminder")
  }

  /** Untrusted text cannot carry a reminder delimiter through the projection. */
  lemma EscapedTextHasNoDelimiter(s: string)
    ensures Count(EscapeDelimiters(s), OPEN) == 0
    ensures Count(EscapeDelimiters(s), CLOSE) == 0
  {
    DelimitersAre();
    var first := Replace(s, OPEN, "&lt;system-reminder");
    assert "&lt;system-reminder"[0] == '&' && "&lt;/system-reminder"[0] == '&';
    ReplaceRemoves(s, OPEN, "&lt;system-reminder", OPEN);
    ReplaceRemoves(first, CLOSE, "&lt;/system-reminder", CLOSE);
    ReplaceRemoves(first, CLOSE, "&lt;/system-reminder", OPEN);
  }

  // ----- escaping a reminder body -------------------------------------------------------------

  /** The three replacements a reminder body goes through, ampersand first. */
  function EscapeBody(s: string): string
  {
    Replace(Replace(Replace(s, "&", "&amp;"), "<", "&lt;"), ">", "&gt;")
  }

  function EscapeChar(c: char): string
  {
    if c == '&' then "&amp;" else if c == '<' then "&lt;" else if c == '>' then "&gt;" else [c]
  }

  function EscapeChars(s: string): string { if s == "" then "" else EscapeChar(s[0]) + EscapeChars(s[1..]) }

  /** The inverse, reading entities from the left. */
  function Unescape(s: string): string
  {
    if s == "" then ""
    else if "&amp;" <= s then "&" + Unescape(s[5..])
    else if "&lt;" <= s then "<" + Unescape(s[4..])
    else if "&gt;" <= s then ">" + Unescape(s[4..])
    else [s[0]] + Unescape(s[1..])
  }

  lemma OneCharPrefix(s: string, c: char)
    requires s != ""
    ensures [c] <= s <==> s[0] == c
  {
    if [c] <= s { assert s[0] == [c][0]; }
  }

  lemma {:induction false} ReplaceCharSplits(a: string, b: string, c: char, rep: string)
    ensures Replace(a + b, [c], rep) == Replace(a, [c], rep) + Replace(b, [c], rep)
    decreases |a|
  {
    if a == "" {
      assert a + b == b;
    } else {
      assert (a + b)[1..] == a[1..] + b;
      OneCharPrefix(a + b, c);
      OneCharPrefix(a, c);
      ReplaceCharSplits(a[1..], b, c, rep);
      var head := if a[0] == c then rep else [a[0]];
      assert head + (Replace(a[1..], [c], rep) + Replace(b, [c], rep))
          == head + Replace(a[1..], [c], rep) + Replace(b, [c], rep);
    }
  }

  lemma {:induction false} ReplaceCharAbsent(a: string, c: char, rep: string)
    requires c !in a
    ensures Replace(a, [c], rep) == a
  {
    if a != "" {
      OneCharPrefix(a, c);
      ReplaceCharAbsent(a[1..], c, rep);
    }
  }

  lemma ReplaceOneChar(c: char, rep: string)
    ensures Replace([c], [c], rep) == rep
  {
    assert [c][1..] == "" && rep + "" == rep;
  }

  /** One character through the three passes. */
  lemma EscapeBodyOfChar(c: char)
    ensures EscapeBody([c]) == EscapeChar(c)
  {
    if c == '&' {
      ReplaceOneChar('&', "&amp;");
      ReplaceCharAbsent("&amp;", '<', "&lt;");
      ReplaceCharAbsent("&amp;", '>', "&gt;");
    } else if c == '<' {
      ReplaceCharAbsent("<", '&', "&amp;");
      ReplaceOneChar('<', "&lt;");
      ReplaceCharAbsent("&lt;", '>', "&gt;");
    } else if c == '>' {
      ReplaceCharAbsent(">", '&', "&amp;");
      ReplaceCharAbsent(">", '<', "&lt;");
      ReplaceOneChar('>', "&gt;");
    } else {
      ReplaceCharAbsent([c], '&', "&amp;");
      ReplaceCharAbsent([c], '<', "&lt;");
      ReplaceCharAbsent([c], '>', "&gt;");
    }
  }

  /** The three passes amount to escaping each character on its own. */
  lemma {:induction false} EscapeBodyIsCharwise(s: string)
    ensures EscapeBody(s) == EscapeChars(s)
  {
    hide EscapeChar;
    if s != "" {
      var head, tail := [s[0]], s[1..];
      assert s == head + tail;
      var amp, amp' := Replace(head, "&", "&amp;"), Replace(tail, "&", "&amp;");
      ReplaceCharSplits(head, tail, '&', "&amp;");
      ReplaceCharSplits(amp, amp', '<', "&lt;");
      ReplaceCharSplits(Replace(amp, "<", "&lt;"), Replace(amp', "<", "&lt;"), '>', "&gt;");
      EscapeBodyOfChar(s[0]);
      EscapeBodyIsCharwise(tail);
    }
  }

  lemma UnescapeOne(c: char, rest: string)
    ensures Unescape(EscapeChar(c) + rest) == [c] + Unescape(rest)
  {
    var s := EscapeChar(c) + rest;
    assert s[|EscapeChar(c)|..] == rest;
    if c == '<' {
      assert "&amp;"[1] == 'a' && s[1] == 'l';
    } else if c == '>' {
      assert "&amp;"[1] == 'a' && "&lt;"[1] == 'l' && s[1] == 'g';
    } else if c != '&' {
      assert "&amp;"[0] == "&lt;"[0] == "&gt;"[0] == '&' && s[0] == c;
    }
  }

  lemma {:induction false} UnescapeInverts(s: string)
    ensures Unescape(EscapeChars(s)) == s
  {
    hide EscapeChar;
    if s != "" {
      UnescapeInverts(s[1..]);
      UnescapeOne(s[0], EscapeChars(s[1..]));
    }
  }

  lemma {:induction false} EscapeCharsHasNoAngle(s: string)
    ensures '<' !in EscapeChars(s)
  {
    if s != "" {
      EscapeCharsHasNoAngle(s[1..]);
      assert '<' !in EscapeChar(s[0]);
    }
  }

  /** A reminder body survives escaping, and its escaped form cannot forge a delimiter. */
  lemma BodyRoundTrips(s: string)
    ensures Unescape(EscapeBody(s)) == s
    ensures '<' !in EscapeBody(s)
  {
    hide EscapeBody, Unescape, EscapeChars;
    EscapeBodyIsCharwise(s);
    UnescapeInverts(s);
    EscapeCharsHasNoAngle(s);
  }
}
