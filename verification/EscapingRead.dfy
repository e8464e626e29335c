/**
  Reading untrusted text back: escaping its reminder delimiters is one pass from the left, and can be
  undone exactly for texts that do not already hold an escaped delimiter.
 */
module EscapingRead {
  import opened Escaping

  const OPEN_NAME := "system-reminder"
  const CLOSE_NAME := "/system-reminder"
  const LT := "&lt;"

  /** A name that `<` turns into a delimiter and `&lt;` into an escaped one. */
  predicate IsName(n: string) { n != "" && '<' !in n && '&' !in n && '\n' !in n }

  lemma NamesAre()
    ensures IsName(OPEN_NAME) && IsName(CLOSE_NAME)
  {
  }

  lemma DelimitersHaveNames()
    ensures OPEN == "<" + OPEN_NAME && CLOSE == "<" + CLOSE_NAME
  {
  }

  lemma EscapesHaveNames()
    ensures "&lt;system-reminder" == LT + OPEN_NAME && "&lt;/system-reminder" == LT + CLOSE_NAME
  {
  }

  predicate AtTag(s: string) { OPEN <= s || CLOSE <= s }

  /** Every `<` that begins a delimiter is written `&lt;`, and nothing else changes. */
  function EscapeOnce(s: string): string
  {
    if s == "" then "" else (if AtTag(s) then LT else [s[0]]) + EscapeOnce(s[1..])
  }

  // ----- one replacement is a pass over the characters ----------------------------------------

  function PassFor(s: string, name: string): string
  {
    if s == "" then "" else (if "<" + name <= s then LT else [s[0]]) + PassFor(s[1..], name)
  }

  lemma {:induction false} PassSkips(a: string, b: string, name: string)
    requires '<' !in a
    ensures PassFor(a + b, name) == a + PassFor(b, name)
  {
    if a == "" {
      assert a + b == b;
    } else {
      assert (a + b)[1..] == a[1..] + b && (a + b)[0] == a[0];
      PassSkips(a[1..], b, name);
      assert ("<" + name)[0] == '<';
    }
  }

  lemma {:induction false} ReplaceIsPass(s: string, name: string)
    requires IsName(name)
    ensures Replace(s, "<" + name, LT + name) == PassFor(s, name)
    decreases |s|
  {
    var q := "<" + name;
    if s != "" {
      if q <= s {
        var rest := s[|q|..];
        assert s[1..] == name + rest;
        PassSkips(name, rest, name);
        ReplaceIsPass(rest, name);
        assert LT + name + PassFor(rest, name) == LT + (name + PassFor(rest, name));
      } else {
        ReplaceIsPass(s[1..], name);
      }
    }
  }

  /** Text without `<` and `&` stands at the head of a pass exactly if it stood there before. */
  lemma {:induction false} PlainHead(t: string, s: string, name: string)
    requires '<' !in t && '&' !in t
    ensures t <= PassFor(s, name) <==> t <= s
  {
    var r := PassFor(s, name);
    if t != "" && s != "" {
      PlainHead(t[1..], s[1..], name);
      var head := if "<" + name <= s then LT else [s[0]];
      assert r == head + PassFor(s[1..], name);
      assert "<" + name <= s ==> s[0] == ("<" + name)[0] == '<';
      assert r[0] == head[0] && LT[0] == '&';
      if r[0] == t[0] {
        assert head == [s[0]];
        HeadAndTail(t, s);
        HeadAndTail(t, r);
        assert r[1..] == PassFor(s[1..], name);
      } else {
        assert s[0] == '<' || head == [s[0]];
        OtherHead(t, r);
        OtherHead(t, s);
      }
    }
  }

  lemma HeadAndTail(t: string, s: string)
    requires t != "" && s != "" && t[0] == s[0]
    ensures t <= s <==> t[1..] <= s[1..]
  {
    assert t == [t[0]] + t[1..] && s == [s[0]] + s[1..];
  }

  lemma OtherHead(t: string, s: string)
    requires t != "" && s != "" && t[0] != s[0]
    ensures !(t <= s)
  {
  }

  /** A delimiter of another name behind an untouched head passes unchanged. */
  lemma TagPasses(s: string, name: string, other: string)
    requires IsName(name) && IsName(other) && s != "" && !("<" + name <= s)
    ensures "<" + other <= PassFor(s, name) <==> "<" + other <= s
  {
    var r, q := PassFor(s, name), "<" + other;
    assert r == [s[0]] + PassFor(s[1..], name) && r[1..] == PassFor(s[1..], name);
    assert q[1..] == other && q[0] == '<';
    PlainHead(other, s[1..], name);
    if s[0] == '<' {
      HeadAndTail(q, s);
      HeadAndTail(q, r);
    } else {
      OtherHead(q, s);
      OtherHead(q, r);
    }
  }

  lemma {:induction false} TwoPasses(s: string)
    ensures PassFor(PassFor(s, OPEN_NAME), CLOSE_NAME) == EscapeOnce(s)
  {
    if s != "" {
      NamesAre();
      DelimitersHaveNames();
      TwoPasses(s[1..]);
      var later := PassFor(s[1..], OPEN_NAME);
      if OPEN <= s {
        PassSkips(LT, later, CLOSE_NAME);
      } else {
        var r := PassFor(s, OPEN_NAME);
        assert r == [s[0]] + later && r[1..] == later;
        TagPasses(s, OPEN_NAME, CLOSE_NAME);
      }
    }
  }

  /** The two replacements together are one pass. */
  lemma EscapeIsOnePass(s: string)
    ensures EscapeDelimiters(s) == EscapeOnce(s)
  {
    NamesAre();
    DelimitersHaveNames();
    EscapesHaveNames();
    ReplaceIsPass(s, OPEN_NAME);
    ReplaceIsPass(PassFor(s, OPEN_NAME), CLOSE_NAME);
    hide Replace, PassFor, EscapeOnce;
    TwoPasses(s);
  }

  // ----- undoing it ---------------------------------------------------------------------------

  predicate AtEscaped(s: string) { LT + OPEN_NAME <= s || LT + CLOSE_NAME <= s }

  /** The text holds what an escaped delimiter looks like. */
  predicate HoldsEscaped(s: string) { exists i :: 0 <= i < |s| && AtEscaped(s[i..]) }

  function UnescapeTags(s: string): string
  {
    if s == "" then ""
    else if AtEscaped(s) then "<" + UnescapeTags(s[4..])
    else [s[0]] + UnescapeTags(s[1..])
  }

  lemma PlainHeadOnce(t: string, s: string)
    requires '<' !in t && '&' !in t
    ensures t <= EscapeOnce(s) <==> t <= s
  {
    hide PassFor, EscapeOnce;
    TwoPasses(s);
    PlainHead(t, s, OPEN_NAME);
    PlainHead(t, PassFor(s, OPEN_NAME), CLOSE_NAME);
  }

  /** An escaped delimiter written by the pass shows at once. */
  lemma WrittenShows(s: string, name: string)
    requires IsName(name) && "<" + name <= s && AtTag(s)
    ensures LT + name <= EscapeOnce(s)
  {
    assert s[1..][..|name|] == name;
    PlainHeadOnce(name, s[1..]);
  }

  /** One that stood in the text already is not told apart from it. */
  lemma StandingShows(s: string, name: string)
    requires IsName(name) && s != "" && !AtTag(s)
    ensures LT + name <= EscapeOnce(s) <==> LT + name <= s
  {
    var t, r := LT + name, EscapeOnce(s);
    assert r == [s[0]] + EscapeOnce(s[1..]) && r[1..] == EscapeOnce(s[1..]);
    assert t[0] == '&' && t[1..] == "lt;" + name;
    PlainHeadOnce("lt;" + name, s[1..]);
    if s[0] == '&' {
      HeadAndTail(t, s);
      HeadAndTail(t, r);
    } else {
      OtherHead(t, s);
      OtherHead(t, r);
    }
  }

  lemma TagIsNoEscape(s: string)
    requires AtTag(s)
    ensures s != "" && s[0] == '<' && !AtEscaped(s)
  {
    assert OPEN[0] == CLOSE[0] == '<';
    assert s[0] == '<' && (LT + OPEN_NAME)[0] == (LT + CLOSE_NAME)[0] == '&';
    OtherHead(LT + OPEN_NAME, s);
    OtherHead(LT + CLOSE_NAME, s);
  }

  lemma HoldsLater(s: string)
    requires s != ""
    ensures HoldsEscaped(s) <==> AtEscaped(s) || HoldsEscaped(s[1..])
  {
    hide AtEscaped;
    assert s[0..] == s;
    if HoldsEscaped(s[1..]) {
      var i :| 0 <= i < |s[1..]| && AtEscaped(s[1..][i..]);
      assert s[1..][i..] == s[i + 1..];
    }
    if i :| 0 <= i < |s| && AtEscaped(s[i..]) {
      if i > 0 { assert s[1..][i - 1..] == s[i..]; }
    }
  }

  lemma UnescapeWritten(s: string)
    requires s != "" && AtTag(s)
    ensures UnescapeTags(EscapeOnce(s)) == "<" + UnescapeTags(EscapeOnce(s[1..]))
  {
    NamesAre();
    DelimitersHaveNames();
    if OPEN <= s { WrittenShows(s, OPEN_NAME); } else { WrittenShows(s, CLOSE_NAME); }
    assert EscapeOnce(s) == LT + EscapeOnce(s[1..]) && EscapeOnce(s)[4..] == EscapeOnce(s[1..]);
  }

  lemma UnescapeStanding(s: string)
    requires s != "" && !AtTag(s)
    ensures AtEscaped(s) ==> UnescapeTags(EscapeOnce(s)) != "" && UnescapeTags(EscapeOnce(s))[0] == '<' != s[0]
    ensures !AtEscaped(s) ==> UnescapeTags(EscapeOnce(s)) == [s[0]] + UnescapeTags(EscapeOnce(s[1..]))
  {
    NamesAre();
    StandingShows(s, OPEN_NAME);
    StandingShows(s, CLOSE_NAME);
    assert EscapeOnce(s) == [s[0]] + EscapeOnce(s[1..]) && EscapeOnce(s)[1..] == EscapeOnce(s[1..]);
    assert AtEscaped(s) <==> AtEscaped(EscapeOnce(s));
    assert AtEscaped(s) ==> s[0] == '&';
  }

  lemma Heads(a: string, b: string, c: char)
    ensures [c] + a == [c] + b <==> a == b
  {
    assert ([c] + a)[1..] == a && ([c] + b)[1..] == b;
  }

  /** Untrusted text is read back exactly if it does not itself spell out an escaped delimiter. */
  lemma {:induction false} ReadsBackIff(s: string)
    ensures UnescapeTags(EscapeOnce(s)) == s <==> !HoldsEscaped(s)
  {
    hide AtEscaped, AtTag, HoldsEscaped;
    if s == "" {
      NothingHeld();
    } else {
      hide EscapeOnce, UnescapeTags;
      ReadsBackIff(s[1..]);
      HoldsLater(s);
      assert s == [s[0]] + s[1..];
      Heads(UnescapeTags(EscapeOnce(s[1..])), s[1..], s[0]);
      if AtTag(s) {
        TagIsNoEscape(s);
        UnescapeWritten(s);
      } else {
        UnescapeStanding(s);
      }
    }
  }

  lemma NothingHeld()
    ensures !HoldsEscaped("") && UnescapeTags(EscapeOnce("")) == ""
  {
  }

  // ----- escaping line by line ----------------------------------------------------------------

  lemma {:induction false} EscapeSkips(a: string, b: string)
    requires '<' !in a
    ensures EscapeOnce(a + b) == a + EscapeOnce(b)
  {
    if a == "" {
      assert a + b == b;
    } else {
      assert (a + b)[1..] == a[1..] + b && (a + b)[0] == a[0];
      EscapeSkips(a[1..], b);
      assert OPEN[0] == CLOSE[0] == '<';
      assert !AtTag(a + b);
    }
  }

  /** No delimiter spans a line's end. */
  lemma TagStopsAtLine(a: string, b: string)
    ensures AtTag(a + "\n" + b) <==> AtTag(a)
  {
    NamesAre();
    DelimitersHaveNames();
    hide OPEN, CLOSE;
    PrefixStopsAt(a, '\n', b, OPEN);
    PrefixStopsAt(a, '\n', b, CLOSE);
    assert a + ['\n'] + b == a + "\n" + b;
  }

  lemma {:induction false} EscapeLines(a: string, b: string)
    ensures EscapeOnce(a + "\n" + b) == EscapeOnce(a) + "\n" + EscapeOnce(b)
  {
    hide *;
    if a == "" {
      assert a + "\n" + b == "\n" + b;
      LineAlone(b);
    } else {
      EscapeLines(a[1..], b);
      LineStep(a, b);
    }
  }

  lemma LineAlone(b: string)
    ensures EscapeOnce("\n" + b) == "\n" + EscapeOnce(b) && EscapeOnce("") == ""
  {
    EscapeSkips("\n", b);
  }

  lemma LineStep(a: string, b: string)
    requires a != "" && EscapeOnce(a[1..] + "\n" + b) == EscapeOnce(a[1..]) + "\n" + EscapeOnce(b)
    ensures EscapeOnce(a + "\n" + b) == EscapeOnce(a) + "\n" + EscapeOnce(b)
  {
    var s := a + "\n" + b;
    TagStopsAtLine(a, b);
    EscapeUnfolds(s);
    EscapeUnfolds(a);
    hide *;
    assert s[1..] == a[1..] + "\n" + b && s[0] == a[0];
    var head, later := if AtTag(a) then LT else [a[0]], EscapeOnce(a[1..]);
    assert head + (later + "\n" + EscapeOnce(b)) == head + later + "\n" + EscapeOnce(b);
  }

  lemma EscapeUnfolds(s: string)
    ensures EscapeOnce(s) == if s == "" then "" else (if AtTag(s) then LT else [s[0]]) + EscapeOnce(s[1..])
  {
  }

  lemma EscapedIsEmpty(s: string)
    ensures EscapeOnce(s) == "" <==> s == ""
  {
    assert |LT| > 0;
  }

  /** A delimiter and its escaped spelling are escaped alike, so that no reader can tell them apart. */
  lemma EscapedAlike(name: string, rest: string)
    requires name == OPEN_NAME || name == CLOSE_NAME
    ensures var tag, spelled := "<" + (name + rest), LT + (name + rest);
            tag != spelled && EscapeOnce(tag) == EscapeOnce(spelled)
  {
    DelimitersHaveNames();
    var s := "<" + (name + rest);
    assert s[..|name| + 1] == "<" + name && s[1..] == name + rest;
    assert AtTag(s);
    assert '<' !in LT && s[0] == '<' && (LT + (name + rest))[0] == '&';
    hide AtTag, OPEN, CLOSE;
    EscapeSkips(LT, name + rest);
  }
}
