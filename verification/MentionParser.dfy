/**
  The two scanners for `@path` mentions in the prompt buffer: the one that looks around the cursor, and the
  regular expression that collects them all.
 */
module MentionParser {
  import opened Common

  datatype Span = Span(path: string, start: nat, end: nat)

  /** JavaScript's `\s`. */
  predicate IsSpace(c: char)
  {
    || '\t' <= c <= '\r' || c == ' ' || c == '\U{A0}' || c == '\U{1680}' || '\U{2000}' <= c <= '\U{200A}'
    || c == '\U{2028}' || c == '\U{2029}' || c == '\U{202F}' || c == '\U{205F}' || c == '\U{3000}' || c == '\U{FEFF}'
  }

  predicate IsPathChar(c: char) { !IsSpace(c) && c != '@' }

  predicate IsAbsolute(path: string)
  {
    (|path| > 0 && (path[0] == '/' || path[0] == '\\')) || (|path| >= 2 && path[1] == ':')
  }

  /** Rooted at a slash or a backslash, or on a drive. */
  lemma AbsoluteIff(path: string)
    ensures IsAbsolute(path) <==> "/" <= path || "\\" <= path || exists c, rest :: path == [c, ':'] + rest
  {
    if |path| >= 2 && path[1] == ':' { assert path == [path[0], ':'] + path[2..]; }
    if c, rest :| path == [c, ':'] + rest { assert path[1] == ':'; }
  }

  // ----- what a mention is --------------------------------------------------------------------

  /** `@` at a token start and the longest run of path characters after it, not an absolute path. */
  predicate IsMention(b: string, m: Span)
  {
    && m.start < m.end <= |b|
    && b[m.start] == '@'
    && (m.start == 0 || IsSpace(b[m.start - 1]))
    && (forall k :: m.start < k < m.end ==> IsPathChar(b[k]))
    && (m.end == |b| || !IsPathChar(b[m.end]))
    && m.path == b[m.start + 1..m.end]
    && !IsAbsolute(m.path)
  }

  // ----- around the cursor --------------------------------------------------------------------

  function LeftStop(b: string, i: int): (r: int)
    requires -1 <= i < |b|
    ensures -1 <= r <= i
    ensures r >= 0 ==> !IsPathChar(b[r])
    ensures forall k :: r < k <= i ==> IsPathChar(b[k])
  {
    if i >= 0 && IsPathChar(b[i]) then LeftStop(b, i - 1) else i
  }

  function RightStop(b: string, e: nat): (r: nat)
    requires e <= |b|
    ensures e <= r <= |b|
    ensures r < |b| ==> !IsPathChar(b[r])
    ensures forall k :: e <= k < r ==> IsPathChar(b[k])
    decreases |b| - e
  {
    if e < |b| && IsPathChar(b[e]) then RightStop(b, e + 1) else e
  }

  /**
    The mention around the cursor.  A cursor behind the end of the buffer walks left over positions that
    hold no character, which the character test takes for path characters, and is itself the span's end.
   */
  function Active(b: string, cursor: int): Option<Span>
  {
    if cursor < 0 then None
    else
      var i := LeftStop(b, Min(cursor, |b|) - 1);
      if i < 0 || b[i] != '@' then None
      else if i > 0 && !IsSpace(b[i - 1]) then None
      else
        var end := if cursor <= |b| then RightStop(b, cursor) else cursor;
        var path := b[i + 1..Min(end, |b|)];
        if IsAbsolute(path) then None else Some(Span(path, i, end))
  }

  method WalkLeft(b: string, cursor: int) returns (i: int)
    ensures if cursor <= 0 then i < 0 else i == LeftStop(b, Min(cursor, |b|) - 1)
  {
    hide IsPathChar;
    i := cursor - 1;
    while i >= 0 && (i >= |b| || IsPathChar(b[i]))
      invariant i < cursor && (cursor >= 0 ==> -1 <= i)
      invariant cursor >= 0 ==> LeftStop(b, Min(cursor, |b|) - 1) == LeftStop(b, Min(i, |b| - 1))
    {
      i := i - 1;
    }
  }

  method WalkRight(b: string, cursor: nat) returns (end: nat)
    ensures end == if cursor <= |b| then RightStop(b, cursor) else cursor
  {
    hide IsPathChar;
    end := cursor;
    while end < |b| && IsPathChar(b[end])
      invariant cursor <= end && (cursor <= |b| ==> end <= |b| && RightStop(b, cursor) == RightStop(b, end))
      invariant cursor > |b| ==> end == cursor
    {
      end := end + 1;
    }
  }

  method ActiveMention(b: string, cursor: int) returns (r: Option<Span>)
    ensures r == Active(b, cursor)
  {
    hide IsSpace, IsAbsolute, LeftStop, RightStop;
    var i := WalkLeft(b, cursor);
    if i < 0 || b[i] != '@' { return None; }
    var start: nat := i;
    if start > 0 && !IsSpace(b[start - 1]) { return None; }
    var end := WalkRight(b, cursor);
    var path := b[start + 1..Min(end, |b|)];
    if IsAbsolute(path) { return None; }
    return Some(Span(path, start, end));
  }

  /** Behind the end the scanner finds what it finds at the end, with the span drawn out to the cursor. */
  lemma BehindTheEnd(b: string, cursor: nat)
    requires cursor > |b|
    ensures match Active(b, |b|)
            case None => Active(b, cursor) == None
            case Some(m) => m.end == |b| && Active(b, cursor) == Some(m.(end := cursor))
  {
    hide IsAbsolute, IsSpace;
  }

  /** The cursor scanner finds exactly the mentions whose text the cursor is in or just behind. */
  lemma ActiveIsTheMentionAround(b: string, cursor: nat, m: Span)
    requires cursor <= |b|
    ensures Active(b, cursor) == Some(m) <==> IsMention(b, m) && m.start < cursor <= m.end
  {
    hide IsSpace, IsAbsolute;
    var i, end := LeftStop(b, cursor - 1), RightStop(b, cursor);
    if IsMention(b, m) && m.start < cursor <= m.end {
      assert !IsPathChar(b[m.start]);
      assert i == m.start;
      assert end == m.end;
    }
  }

  // ----- the regular expression ---------------------------------------------------------------

  predicate Opens(b: string, q: nat) { q + 1 < |b| && b[q] == '@' && IsPathChar(b[q + 1]) }

  /** Where the `@` stands of a match beginning at `p`: the buffer's start or one space comes before it. */
  function MatchAt(b: string, p: nat): Option<nat>
  {
    if p == 0 && Opens(b, 0) then Some(0)
    else if p < |b| && IsSpace(b[p]) && Opens(b, p + 1) then Some(p + 1)
    else None
  }

  /** The leftmost match from `p` on. */
  function Exec(b: string, p: nat): (r: Option<nat>)
    ensures r.Some? ==> p <= r.value && Opens(b, r.value)
    decreases |b| - p
  {
    if MatchAt(b, p).Some? then MatchAt(b, p)
    else if p < |b| then Exec(b, p + 1) else None
  }

  /** The mentions found from `p` on. */
  function Found(b: string, p: nat): seq<Span>
    decreases |b| - p
  {
    var q := Exec(b, p);
    if q.None? then []
    else
      var end := RightStop(b, q.value + 1);
      var path := b[q.value + 1..end];
      (if IsAbsolute(path) then [] else [Span(path, q.value, end)]) + Found(b, end)
  }

  method AllMentions(b: string) returns (out: seq<Span>)
    ensures out == Found(b, 0)
  {
    hide Found, IsAbsolute;
    out := [];
    var lastIndex := 0;
    while true
      invariant out + Found(b, lastIndex) == Found(b, 0)
      decreases |b| - lastIndex
    {
      FoundUnfolds(b, lastIndex);
      var m := Exec(b, lastIndex);
      if m.None? { break; }
      var end := RightStop(b, m.value + 1);
      var path := b[m.value + 1..end];
      ghost var rest := Found(b, end);
      lastIndex := end;
      if IsAbsolute(path) {
        assert [] + rest == rest;
        continue;
      }
      assert out + ([Span(path, m.value, end)] + rest) == out + [Span(path, m.value, end)] + rest;
      out := out + [Span(path, m.value, end)];
    }
  }

  lemma FoundUnfolds(b: string, p: nat)
    ensures match Exec(b, p)
            case None => Found(b, p) == []
            case Some(q) =>
              var end := RightStop(b, q + 1);
              var path := b[q + 1..end];
              Found(b, p) == (if IsAbsolute(path) then [] else [Span(path, q, end)]) + Found(b, end)
  {
    hide IsAbsolute, Exec, RightStop;
  }

  // ----- what the regular expression finds ----------------------------------------------------

  /** Where the match of a mention begins. */
  function Lead(m: Span): nat { if m.start == 0 then 0 else m.start - 1 }

  predicate IsNamed(b: string, m: Span) { IsMention(b, m) && m.path != "" }

  /** The first match is the mention with the smallest lead. */
  lemma {:induction false} ExecIsLeftmost(b: string, p: nat, m: Span)
    requires p <= |b| && IsNamed(b, m) && Lead(m) >= p
    ensures Exec(b, p).Some? && Exec(b, p).value <= m.start
    ensures Exec(b, p).value < m.start ==> RightStop(b, Exec(b, p).value + 1) <= Lead(m)
    decreases |b| - p
  {
    assert b[m.start + 1] == m.path[0];
    assert Opens(b, m.start);
    if MatchAt(b, p).Some? {
      var q := MatchAt(b, p).value;
      if q != m.start { StopsBefore(b, p, q, m); }
    } else {
      assert Lead(m) != p;
      ExecIsLeftmost(b, p + 1, m);
    }
  }

  lemma StopsBefore(b: string, p: nat, q: nat, m: Span)
    requires p <= |b| && IsNamed(b, m) && Lead(m) >= p && MatchAt(b, p) == Some(q) && q != m.start
    ensures q < m.start && RightStop(b, q + 1) <= Lead(m)
  {
    assert Opens(b, q);
    assert Lead(m) == p == 0 ==> m.start == q;
    assert q < m.start;
    assert IsSpace(b[Lead(m)]);
    assert !IsPathChar(b[Lead(m)]);
    assert Lead(m) != q;
    assert Lead(m) >= q + 1;
  }

  lemma {:induction false} ExecIsMention(b: string, p: nat)
    requires p <= |b| && Exec(b, p).Some?
    ensures var q := Exec(b, p).value;
            && (q == 0 || IsSpace(b[q - 1]))
            && p <= (if q == 0 then 0 else q - 1)
    decreases |b| - p
  {
    if MatchAt(b, p).None? { ExecIsMention(b, p + 1); }
  }

  /** A mention at `q` ends where the path characters do. */
  lemma MentionEnds(b: string, m: Span)
    requires IsNamed(b, m)
    ensures m.end == RightStop(b, m.start + 1)
  {
  }

  lemma FoundStep(b: string, p: nat, m: Span)
    requires Exec(b, p).Some?
    ensures var q := Exec(b, p).value;
            var end := RightStop(b, q + 1);
            var path := b[q + 1..end];
            m in Found(b, p) <==> (!IsAbsolute(path) && m == Span(path, q, end)) || m in Found(b, end)
  {
    hide IsAbsolute, Exec, RightStop;
  }

  lemma FoundNothing(b: string, p: nat)
    requires Exec(b, p).None?
    ensures Found(b, p) == []
  {
    hide Exec;
  }

  /** From any position the scan finds all named mentions that lie ahead, and nothing else. */
  lemma {:induction false} FoundIsComplete(b: string, p: nat, m: Span)
    requires p <= |b|
    ensures m in Found(b, p) <==> IsNamed(b, m) && Lead(m) >= p
    decreases |b| - p
  {
    hide Found, IsNamed, Lead, Exec, RightStop, IsAbsolute;
    if Exec(b, p).None? {
      FoundNothing(b, p);
      if IsNamed(b, m) && Lead(m) >= p { ExecIsLeftmost(b, p, m); }
    } else {
      FoundIsComplete(b, RightStop(b, Exec(b, p).value + 1), m);
      FoundStep(b, p, m);
      OneMatch(b, p, m);
    }
  }

  lemma OneMatch(b: string, p: nat, m: Span)
    requires p <= |b| && Exec(b, p).Some?
    ensures var q := Exec(b, p).value;
            var end := RightStop(b, q + 1);
            var path := b[q + 1..end];
            var here := !IsAbsolute(path) && m == Span(path, q, end);
            IsNamed(b, m) && Lead(m) >= p <==> here || (IsNamed(b, m) && Lead(m) >= end)
  {
    hide IsAbsolute, IsSpace, Exec;
    ExecIsMention(b, p);
    var q := Exec(b, p).value;
    if IsNamed(b, m) && Lead(m) >= p {
      ExecIsLeftmost(b, p, m);
      MentionEnds(b, m);
    }
  }

  /** Spans come in order, with at least a space between them. */
  lemma {:induction false} FoundIsOrdered(b: string, p: nat)
    requires p <= |b|
    ensures forall i, j :: 0 <= i < j < |Found(b, p)| ==> Found(b, p)[i].end < Found(b, p)[j].start
    decreases |b| - p
  {
    var q := Exec(b, p);
    if q.Some? {
      var end := RightStop(b, q.value + 1);
      var rest := Found(b, end);
      FoundIsOrdered(b, end);
      forall j | 0 <= j < |rest|
        ensures end < rest[j].start
      {
        FoundIsComplete(b, end, rest[j]);
      }
    }
  }

  // ----- agreement ----------------------------------------------------------------------------

  /**
    The scanners agree: a span with a path is among all mentions exactly when the cursor scanner returns
    it at every cursor from just behind the `@` to the end of the path.
   */
  lemma ScannersAgree(b: string, m: Span)
    requires m.start < m.end <= |b| && m.path != ""
    ensures m in Found(b, 0) <==> forall c: nat | m.start < c <= m.end :: Active(b, c) == Some(m)
  {
    hide Active, IsMention, Found;
    FoundIsComplete(b, 0, m);
    forall c: nat | m.start < c <= m.end
      ensures Active(b, c) == Some(m) <==> IsMention(b, m)
    {
      ActiveIsTheMentionAround(b, c, m);
    }
    if forall c: nat | m.start < c <= m.end :: Active(b, c) == Some(m) {
      assert Active(b, m.end) == Some(m);
    }
  }
}
