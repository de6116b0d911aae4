/** The SET line that `sync_replica` (src/replication.c) writes for one entry, and exactly
    when the tokenizer reads the key and the value back out of it. */
module SyncLine {
  import opened Text
  import opened Tokenizer

  predicate NeedsQuotes(v: string) { ' ' in v || '\t' in v || '"' in v }

  function Wrapped(v: string): string {
    if NeedsQuotes(v) then "\"" + v + "\"" else v
  }

  /** Without the closing CRLF. */
  function SetLine(key: string, v: string): string {
    "SET " + key + " " + Wrapped(v)
  }

  /** A word the tokenizer returns unchanged when it stands unquoted between spaces. */
  predicate PlainWord(w: string) {
    w != "" && w[0] != '"' && forall i :: 0 <= i < |w| ==> !IsSpace(w[i])
  }

  /** A body with no quote the tokenizer would take for the closing one. */
  predicate Enclosable(w: string) {
    forall i :: 0 <= i < |w| ==> !Closes(w, i)
  }

  // ---------- which entries survive the trip, by their characters ----------

  /** Space, tab, line feed, vertical tab, form feed, carriage return. */
  const WHITE: string := " \t\n\U{000B}\U{000C}\r"

  /** Not empty, no white space, no quote at the start. */
  predicate SendableKey(key: string) {
    key != "" && key[0] != '"' && forall i :: 0 <= i < |key| ==> key[i] !in WHITE
  }

  /** With a quote in it: each has a backslash before it, and the last character is none.
      Without: not empty, and if there is white space at all, a space or a tab is among it
      and the last character is no backslash. */
  predicate SendableValue(v: string) {
    if '"' in v then
      v[|v| - 1] != '\\' && forall i :: 0 <= i < |v| && v[i] == '"' ==> i > 0 && v[i - 1] == '\\'
    else
      v != "" && ((exists i :: 0 <= i < |v| && v[i] in WHITE) ==> (' ' in v || '\t' in v) && v[|v| - 1] != '\\')
  }

  predicate Sendable(key: string, v: string) { SendableKey(key) && SendableValue(v) }

  lemma White(c: char)
    ensures IsSpace(c) <==> c in WHITE
  {}

  lemma KeyIsWord(key: string)
    ensures SendableKey(key) <==> PlainWord(key)
  {
    forall i | 0 <= i < |key| ensures key[i] in WHITE <==> IsSpace(key[i]) { White(key[i]); }
  }

  /** The way `sync_replica` sends a value is right for exactly these. */
  lemma ValueSurvives(v: string)
    ensures SendableValue(v) <==> if NeedsQuotes(v) then Enclosable(v) && v[|v| - 1] != '\\' else PlainWord(v)
  {
    forall i | 0 <= i < |v| ensures v[i] in WHITE <==> IsSpace(v[i]) { White(v[i]); }
    if '"' in v {
      if Enclosable(v) {
        forall i | 0 <= i < |v| && v[i] == '"' ensures i > 0 && v[i - 1] == '\\' { assert !Closes(v, i); }
      }
    } else {
      assert Enclosable(v);
      assert ' ' in v ==> exists i :: 0 <= i < |v| && v[i] in WHITE by { White(' '); }
      assert '\t' in v ==> exists i :: 0 <= i < |v| && v[i] in WHITE by { White('\t'); }
    }
  }

  // ---------- what a token can look like ----------

  lemma {:induction false} TokenShape(s: string, k: nat)
    requires k < |Tokens(s)|
    ensures PlainWord(Tokens(s)[k]) || ('"' in s && Enclosable(Tokens(s)[k]))
    decreases |s|
  {
    if IsSpace(s[0]) {
      TokenShape(s[1..], k);
    } else if s[0] == '"' {
      var b, e := s[1..], QuoteEnd(s[1..], 0);
      if k == 0 {
        forall i | 0 <= i < e ensures !Closes(b[..e], i) { assert !Closes(b, i); }
      } else {
        TokenShape(b[e + 1..], k - 1);
      }
    } else if k > 0 {
      TokenShape(s[WordEnd(s)..], k - 1);
    }
  }

  lemma {:induction false} LeadingSpace(w: string, s: string)
    requires forall i :: 0 <= i < |w| ==> IsSpace(w[i])
    ensures Tokens(w + s) == Tokens(s)
  {
    if w == "" {
      assert w + s == s;
    } else {
      assert (w + s)[1..] == w[1..] + s;
      LeadingSpace(w[1..], s);
    }
  }

  /** A plain word followed by white space, or by nothing, is the first token. */
  lemma PlainFirst(w: string, rest: string)
    requires PlainWord(w) && (rest == "" || IsSpace(rest[0]))
    ensures Tokens(w + rest) == [w] + Tokens(rest)
  {
    var s := w + rest;
    WordEndIs(s, |w|);
    assert s[..|w|] == w && s[|w|..] == rest;
  }

  /** A line that starts with an unquoted word yields a first token without white space. */
  lemma UnquotedFirst(s: string)
    requires s != "" && !IsSpace(s[0]) && s[0] != '"'
    ensures Tokens(s) != [] && PlainWord(Tokens(s)[0])
  {}

  lemma OpenQuote(b: string)
    ensures Tokens("\"" + b) ==
            if QuoteEnd(b, 0) == |b| then [] else [b[..QuoteEnd(b, 0)]] + Tokens(b[QuoteEnd(b, 0) + 1..])
  {
    assert ("\"" + b)[1..] == b;
  }

  lemma NoTokens()
    ensures Tokens("") == []
  {}

  lemma QuotedAlone(v: string)
    ensures Tokens("\"" + v + "\"") == [v] <==> Enclosable(v) && (v == "" || v[|v| - 1] != '\\')
  {
    hide Tokens, QuoteEnd, Enclosable, Closes;
    var b := v + "\"";
    assert "\"" + v + "\"" == "\"" + b;
    OpenQuote(b);
    EndOfQuote(v);
    var e := QuoteEnd(b, 0);
    if e < |b| {
      OneToken(b[..e], Tokens(b[e + 1..]), v);
      NoTokens();
      assert b[..|v|] == v && b[|v| + 1..] == "";
    }
  }

  lemma OneToken(w: string, rest: seq<string>, v: string)
    ensures [w] + rest == [v] <==> w == v && rest == []
  {
    assert ([w] + rest)[0] == w && |[w] + rest| == 1 + |rest|;
  }

  /** Where the quote around a value ends. */
  lemma EndOfQuote(v: string)
    ensures Enclosable(v) && (v == "" || v[|v| - 1] != '\\') <==> QuoteEnd(v + "\"", 0) == |v|
  {
    hide QuoteEnd;
    var b := v + "\"";
    forall i | 0 <= i < |v| ensures Closes(b, i) == Closes(v, i) {}
    assert Closes(b, |v|) <==> v == "" || v[|v| - 1] != '\\';
    var e := QuoteEnd(b, 0);
    if e < |v| { assert Closes(v, e); }
    if e > |v| { assert !Closes(b, |v|); }
  }

  lemma ValueAlone(v: string)
    ensures Tokens(Wrapped(v)) == [v] <==> SendableValue(v)
  {
    hide SendableValue;
    ValueSurvives(v);
    if NeedsQuotes(v) {
      QuotedAlone(v);
    } else {
      if PlainWord(v) { PlainFirst(v, ""); assert v + "" == v; }
      if Tokens(v) == [v] { TokenShape(v, 0); }
    }
  }

  // ---------- a key that is not a plain word is never read back ----------

  /** Neither an unquoted nor a quoted token: it holds white space or opens with a
      quote, and it also holds a quote that would close it. */
  lemma NotAToken(s: string, k: nat, w: string)
    requires !PlainWord(w) && !Enclosable(w)
    ensures k < |Tokens(s)| ==> Tokens(s)[k] != w
  {
    if k < |Tokens(s)| { TokenShape(s, k); }
  }

  /** A blank key: its token would have to be cut out of the value. */
  lemma BlankKey(key: string, v: string)
    requires forall i :: 0 <= i < |key| ==> IsSpace(key[i])
    ensures Tokens(Wrapped(v)) != [key, v]
  {
    var t := Wrapped(v);
    if Tokens(t) == [key, v] {
      TokenShape(t, 0);
      if NeedsQuotes(v) {
        var b := v + "\"";
        assert t[1..] == b;
        var e := QuoteEnd(b, 0);
        assert b[..e] == key;
        assert Closes(v, e);
        assert v[0] == b[0] && (e > 0 ==> v[0] == key[0]);
        NotAToken(t, 1, v);
      }
    }
  }

  lemma BadKey(key: string, v: string)
    requires !PlainWord(key)
    ensures Tokens(key + " " + Wrapped(v)) != [key, v]
  {
    var t := Wrapped(v);
    var s := key + " " + t;
    var n := SpaceRun(key);
    if n == |key| {
      LeadingSpace(key + " ", t);
      BlankKey(key, v);
    } else if key[n] == '"' {
      assert Closes(key, n);
      NotAToken(s, 0, key);
    } else {
      LeadingSpace(key[..n], key[n..] + " " + t);
      assert s == key[..n] + (key[n..] + " " + t);
      UnquotedFirst(key[n..] + " " + t);
    }
  }

  lemma AfterSet(key: string, v: string)
    ensures Tokens(key + " " + Wrapped(v)) == [key, v] <==> Sendable(key, v)
  {
    hide Tokens, Wrapped, SendableKey, SendableValue;
    KeyIsWord(key);
    var t := Wrapped(v);
    if PlainWord(key) {
      assert key + " " + t == key + (" " + t);
      PlainFirst(key, " " + t);
      LeadingSpace(" ", t);
      ValueAlone(v);
      assert ([key] + Tokens(t))[1..] == Tokens(t) && [key, v][1..] == [v];
    } else {
      BadKey(key, v);
    }
  }

  /** The line that carries an entry tokenizes to SET, key, value if and only if key and
      value have the right characters. */
  lemma SetLineReadBack(key: string, v: string)
    ensures Tokens(SetLine(key, v) + CRLF) == ["SET", key, v] <==> Sendable(key, v)
  {
    hide Tokens, Wrapped, Sendable;
    var r := key + " " + Wrapped(v);
    EolIrrelevant(SetLine(key, v));
    assert SetLine(key, v) == "SET" + (" " + r);
    PlainFirst("SET", " " + r);
    LeadingSpace(" ", r);
    AfterSet(key, v);
    assert (["SET"] + Tokens(r))[1..] == Tokens(r) && ["SET", key, v][1..] == [key, v];
  }
}
