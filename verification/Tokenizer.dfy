/** Splitting a command line into words (`tokenize_command`, src/commands.c). */
module Tokenizer {
  import opened Text

  // ---------- the grammar, as a reference definition ----------

  /** Length of the leading run without white space. */
  function WordEnd(s: string): (e: nat)
    ensures e <= |s|
    ensures forall i :: 0 <= i < e ==> !IsSpace(s[i])
    ensures e < |s| ==> IsSpace(s[e])
  {
    if s != "" && !IsSpace(s[0]) then 1 + WordEnd(s[1..]) else 0
  }

  /** The character at `i` ends a quoted word with body `s`: a quote that is not
      preceded, inside the body, by a backslash. */
  predicate Closes(s: string, i: nat)
    requires i < |s|
  {
    s[i] == '"' && (i == 0 || s[i - 1] != '\\')
  }

  function QuoteEnd(s: string, i: nat): (e: nat)
    requires i <= |s|
    ensures i <= e <= |s|
    ensures e < |s| ==> Closes(s, e)
    ensures forall j :: i <= j < e ==> !Closes(s, j)
    decreases |s| - i
  {
    if i == |s| || Closes(s, i) then i else QuoteEnd(s, i + 1)
  }

  /** White space separates words; a leading quote opens a word that runs to its
      closing quote; a quoted word that is never closed is dropped. */
  function Tokens(s: string): seq<string>
    decreases |s|
  {
    if s == "" then []
    else if IsSpace(s[0]) then Tokens(s[1..])
    else if s[0] == '"' then
      var e := QuoteEnd(s[1..], 0);
      if e == |s| - 1 then [] else [s[1..][..e]] + Tokens(s[1..][e + 1..])
    else
      [s[..WordEnd(s)]] + Tokens(s[WordEnd(s)..])
  }

  /** The trailing CRLF or LF that `tokenize_command` cuts off first. */
  function StripEol(s: string): (r: string)
    ensures r <= s
  {
    if |s| >= 2 && s[|s| - 2..] == CRLF then s[..|s| - 2]
    else if |s| >= 1 && s[|s| - 1] == '\n' then s[..|s| - 1]
    else s
  }

  /** One CRLF, or else one LF, and no more. */
  lemma StripEolIs(s: string)
    ensures StripEol(s + "\r\n") == s
    ensures (s == "" || s[|s| - 1] != '\r') ==> StripEol(s + "\n") == s
    ensures (s == "" || s[|s| - 1] != '\n') ==> StripEol(s) == s
  {
    assert (s + "\r\n")[|s|..] == "\r\n" && (s + "\r\n")[..|s|] == s;
    var t := s + "\n";
    assert t[..|s|] == s;
    if s != "" { assert t[|t| - 2..][0] == s[|s| - 1]; }
    if |s| >= 2 { assert s[|s| - 2..][1] == s[|s| - 1]; }
  }

  // ---------- facts about the two ends ----------

  lemma WordEndIs(s: string, e: nat)
    requires e <= |s| && (forall i :: 0 <= i < e ==> !IsSpace(s[i])) && (e < |s| ==> IsSpace(s[e]))
    ensures WordEnd(s) == e
  {
  }

  lemma QuoteEndIs(s: string, e: nat)
    requires e <= |s| && (forall i :: 0 <= i < e ==> !Closes(s, i)) && (e < |s| ==> Closes(s, e))
    ensures QuoteEnd(s, 0) == e
  {
  }

  lemma TrailingSpaceQuoted(b: string, c: char)
    requires IsSpace(c)
    ensures var e := QuoteEnd(b, 0);
      if e < |b| then
        QuoteEnd(b + [c], 0) == e && (b + [c])[..e] == b[..e] && (b + [c])[e + 1..] == b[e + 1..] + [c]
      else QuoteEnd(b + [c], 0) == |b| + 1
  {
    hide QuoteEnd;
    var e := QuoteEnd(b, 0);
    forall i | 0 <= i < |b| ensures Closes(b + [c], i) == Closes(b, i) {}
    QuoteEndIs(b + [c], if e < |b| then e else |b| + 1);
  }

  lemma TrailingSpaceWord(s: string, c: char)
    requires IsSpace(c)
    ensures var e := WordEnd(s);
      WordEnd(s + [c]) == e && (s + [c])[..e] == s[..e] && (s + [c])[e..] == s[e..] + [c]
  {
    WordEndIs(s + [c], WordEnd(s));
  }

  /** White space at the end of a line changes no token. */
  lemma {:induction false} TrailingSpace(s: string, c: char)
    requires IsSpace(c)
    ensures Tokens(s + [c]) == Tokens(s)
    decreases |s|
  {
    hide QuoteEnd, WordEnd;
    if s == "" {
    } else if IsSpace(s[0]) {
      assert (s + [c])[1..] == s[1..] + [c];
      TrailingSpace(s[1..], c);
    } else if s[0] == '"' {
      var b := s[1..];
      assert (s + [c])[1..] == b + [c];
      TrailingSpaceQuoted(b, c);
      if QuoteEnd(b, 0) < |b| { TrailingSpace(b[QuoteEnd(b, 0) + 1..], c); }
    } else {
      TrailingSpaceWord(s, c);
      TrailingSpace(s[WordEnd(s)..], c);
    }
  }

  /** Appending CRLF or LF to any input, or cutting one off, never changes the tokens. */
  lemma EolIrrelevant(s: string)
    ensures Tokens(s + CRLF) == Tokens(s)
    ensures Tokens(s + "\n") == Tokens(s)
    ensures Tokens(StripEol(s)) == Tokens(s)
  {
    TrailingSpace(s, '\n');
    TrailingSpace(s, '\r');
    TrailingSpace(s + "\r", '\n');
    assert s + CRLF == s + "\r" + "\n";
    var r := StripEol(s);
    if |s| >= 2 && s[|s| - 2..] == CRLF {
      assert s == r + "\r" + "\n";
      TrailingSpace(r, '\r');
      TrailingSpace(r + "\r", '\n');
    } else if |s| >= 1 && s[|s| - 1] == '\n' {
      assert s == r + "\n";
      TrailingSpace(r, '\n');
    }
  }

  // ---------- the in-place state machine ----------

  datatype State = Gap | Word | Quoted

  /** What the scanner has established about the part it stands in, up to `p`. */
  ghost predicate Scanned(s: string, state: State, start: nat, p: nat) {
    && p <= |s|
    && (state.Word? ==> start < p && InWord(s, start, p))
    && (state.Quoted? ==> 1 <= start <= p && InQuotes(s, start, p))
  }

  /** The tokens of the part of the line not yet cut into words. */
  ghost function ToCome(s: string, state: State, start: nat, p: nat): seq<string>
    requires Scanned(s, state, start, p)
  {
    match state
    case Gap => Tokens(s[p..])
    case Word => Tokens(s[start..])
    case Quoted => Tokens(s[start - 1..])
  }

  ghost predicate InWord(s: string, start: nat, p: nat)
    requires start < p <= |s|
  {
    s[start] != '"' && forall i :: start <= i < p ==> !IsSpace(s[i])
  }

  ghost predicate InQuotes(s: string, start: nat, p: nat)
    requires 1 <= start <= p <= |s|
  {
    s[start - 1] == '"' && forall i :: 0 <= i < p - start ==> !Closes(s[start..], i)
  }

  lemma WordStops(s: string, start: nat, p: nat)
    requires start < p <= |s| && InWord(s, start, p)
    requires p < |s| ==> IsSpace(s[p])
    ensures Tokens(s[start..]) == [s[start..p]] + if p < |s| then Tokens(s[p + 1..]) else []
  {
    var t := s[start..];
    WordEndIs(t, p - start);
    assert t[..p - start] == s[start..p];
    assert t[p - start..] == s[p..];
    if p < |s| { assert s[p..][1..] == s[p + 1..]; }
  }

  lemma QuoteStops(s: string, start: nat, p: nat)
    requires 1 <= start <= p <= |s| && InQuotes(s, start, p)
    requires p < |s| ==> Closes(s[start..], p - start)
    ensures Tokens(s[start - 1..]) == if p < |s| then [s[start..p]] + Tokens(s[p + 1..]) else []
  {
    var t := s[start - 1..];
    assert t[1..] == s[start..];
    QuoteEndIs(s[start..], p - start);
    if p < |s| {
      assert s[start..][..p - start] == s[start..p];
      assert s[start..][p - start + 1..] == s[p + 1..];
    }
  }

  lemma GapStep(s: string, start: nat, p: nat)
    requires p < |s|
    ensures IsSpace(s[p]) ==> ToCome(s, Gap, start, p + 1) == ToCome(s, Gap, start, p)
    ensures s[p] == '"' ==>
      Scanned(s, Quoted, p + 1, p + 1) && ToCome(s, Quoted, p + 1, p + 1) == ToCome(s, Gap, start, p)
    ensures !IsSpace(s[p]) && s[p] != '"' ==>
      Scanned(s, Word, p, p + 1) && ToCome(s, Word, p, p + 1) == ToCome(s, Gap, start, p)
  {
    assert s[p..][1..] == s[p + 1..];
  }

  lemma WordStep(s: string, start: nat, p: nat)
    requires p < |s| && Scanned(s, Word, start, p)
    ensures if IsSpace(s[p]) then ToCome(s, Word, start, p) == [s[start..p]] + ToCome(s, Gap, start, p + 1)
            else Scanned(s, Word, start, p + 1) && ToCome(s, Word, start, p + 1) == ToCome(s, Word, start, p)
  {
    if IsSpace(s[p]) { WordStops(s, start, p); }
  }

  lemma QuotedStep(s: string, start: nat, p: nat)
    requires p < |s| && Scanned(s, Quoted, start, p)
    ensures if s[p] == '"' && s[p - 1] != '\\'
            then ToCome(s, Quoted, start, p) == [s[start..p]] + ToCome(s, Gap, start, p + 1)
            else Scanned(s, Quoted, start, p + 1) && ToCome(s, Quoted, start, p + 1) == ToCome(s, Quoted, start, p)
  {
    assert Closes(s[start..], p - start) <==> s[p] == '"' && s[p - 1] != '\\';
    if s[p] == '"' && s[p - 1] != '\\' { QuoteStops(s, start, p); }
  }

  lemma ScanEnd(s: string, state: State, start: nat)
    requires Scanned(s, state, start, |s|)
    ensures ToCome(s, state, start, |s|) == if state == Word then [s[start..|s|]] else []
  {
    match state
    case Gap =>
    case Word => WordStops(s, start, |s|);
    case Quoted => QuoteStops(s, start, |s|);
  }

  /** Moving the next token from those to come to those found. */
  lemma MoveOne(done: seq<string>, word: string, toCome: seq<string>)
    ensures done + ([word] + toCome) == (done + [word]) + toCome
  {}

  /** The buffer still holds the unread part of the line and the whole open word. */
  ghost predicate Intact(buf: array<char>, s: string, state: State, start: nat, p: nat)
    reads buf
    requires p <= |s| < buf.Length
  {
    && buf[|s|] == NUL
    && (forall i :: p <= i < |s| ==> buf[i] == s[i])
    && (!state.Gap? ==> forall i :: start <= i < |s| ==> buf[i] == s[i])
    && (state.Quoted? ==> 1 <= start <= p && buf[start - 1] == s[start - 1])
  }

  /** `*p = '\0'; strdup(start)`: the copy is exactly the word, whatever was
      overwritten before it. */
  method CutWord(buf: array<char>, start: nat, p: nat, ghost s: string) returns (word: string)
    requires start <= p <= |s| < buf.Length && NulFree(s)
    requires forall i :: start <= i < p ==> buf[i] == s[i]
    modifies buf
    ensures word == s[start..p]
    ensures buf[p] == NUL && forall i :: 0 <= i < buf.Length && i != p ==> buf[i] == old(buf[i])
  {
    buf[p] := NUL;
    ghost var m := buf[start..];
    assert m[..p - start] == s[start..p];
    CStrAt(m, p - start);
    word := CStr(buf[start..]);
  }

  /** Ends the word at `p` and stores its copy, first growing the token array to
      `larger` slots when it is full. */
  method EndWord(buf: array<char>, start: nat, p: nat, ghost s: string,
                 tokens: seq<string>, maxTokens: nat, larger: nat)
    returns (tokens': seq<string>, maxTokens': nat)
    requires start <= p <= |s| < buf.Length && NulFree(s)
    requires forall i :: start <= i < p ==> buf[i] == s[i]
    requires |tokens| <= maxTokens < larger
    modifies buf
    ensures tokens' == tokens + [s[start..p]] && |tokens'| <= maxTokens' && maxTokens <= maxTokens'
    ensures buf[p] == NUL && forall i :: 0 <= i < buf.Length && i != p ==> buf[i] == old(buf[i])
  {
    var word := CutWord(buf, start, p, s);
    maxTokens' := if |tokens| >= maxTokens then larger else maxTokens;
    assert |tokens| < maxTokens';
    tokens' := tokens + [word];
  }

  /** `strlen`. */
  method StrLen(buf: array<char>) returns (n: nat)
    requires NUL in buf[..]
    ensures n < buf.Length && buf[n] == NUL && buf[..n] == CStr(buf[..])
  {
    n := 0;
    while buf[n] != NUL
      invariant n < buf.Length && NulFree(buf[..n]) && NUL in buf[n..]
      decreases buf.Length - n
    {
      n := n + 1;
    }
    CStrAt(buf[..], n);
    assert buf[..][..n] == buf[..n];
  }

  /** Overwrites the trailing CRLF or LF. */
  method CutEol(buf: array<char>) returns (len: nat)
    requires NUL in buf[..]
    modifies buf
    ensures len < buf.Length && buf[len] == NUL && buf[..len] == StripEol(CStr(old(buf[..])))
  {
    hide CStr;
    len := StrLen(buf);
    ghost var s := buf[..len];
    if len >= 2 && buf[len - 2] == '\r' && buf[len - 1] == '\n' {
      len := len - 2;
      assert s[len..] == CRLF;
    } else if len >= 1 && buf[len - 1] == '\n' {
      len := len - 1;
      assert |s| >= 2 ==> s[|s| - 2..] != CRLF by { if |s| >= 2 { assert s[|s| - 2..][0] == buf[|s| - 2]; } }
    }
    assert s[..len] == StripEol(s);
    buf[len] := NUL;
    assert buf[..len] == s[..len];
  }

  /** `tokenize_command`: a three-state scan that ends every word by overwriting the
      buffer, started on a NUL-terminated buffer. */
  method Tokenize(buf: array<char>) returns (tokens: seq<string>)
    requires NUL in buf[..]
    modifies buf
    ensures tokens == Tokens(CStr(old(buf[..])))
  {
    hide Tokens, CStr, StripEol, WordEnd, QuoteEnd;
    EolIrrelevant(CStr(buf[..]));
    var len := CutEol(buf);
    ghost var s := buf[..len];
    ghost var toCome := Tokens(s);
    assert s[0..] == s;

    tokens := [];
    var maxTokens := 10;
    var p, start, state := 0, 0, Gap;
    while buf[p] != NUL
      invariant p <= |s| == len < buf.Length && NulFree(s)
      invariant Scanned(s, state, start, p)
      invariant Intact(buf, s, state, start, p)
      invariant toCome == ToCome(s, state, start, p)
      invariant Tokens(s) == tokens + toCome
      invariant |tokens| <= maxTokens && 10 <= maxTokens
      decreases len - p
    {
      var c := buf[p];
      assert p < |s| && c == s[p];
      match state {
      case Gap =>
        GapStep(s, start, p);
        if IsSpace(c) {
        } else if c == '"' {
          start, state := p + 1, Quoted;
        } else {
          start, state := p, Word;
        }
      case Word =>
        WordStep(s, start, p);
        if IsSpace(c) {
          MoveOne(tokens, s[start..p], toCome[1..]);
          tokens, maxTokens := EndWord(buf, start, p, s, tokens, maxTokens, maxTokens * 2);
          toCome := toCome[1..];
          state := Gap;
        }
      case Quoted =>
        QuotedStep(s, start, p);
        if c == '"' && (p == 0 || buf[p - 1] != '\\') {
          MoveOne(tokens, s[start..p], toCome[1..]);
          tokens, maxTokens := EndWord(buf, start, p, s, tokens, maxTokens, maxTokens * 2);
          toCome := toCome[1..];
          state := Gap;
        }
      }
      p := p + 1;
    }
    ScanEnd(s, state, start);
    if state == Word {
      tokens, maxTokens := EndWord(buf, start, p, s, tokens, maxTokens, maxTokens + 1);
    }
  }
}
