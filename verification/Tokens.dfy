/** A sentence cut into tokens: quoted literals, and runs of anything but space
    (hotelcontrols/compiler/grammar.py). */
module Tokens {
  import opened Texts

  // ------------------------------------------------------------------ the tokenizer
  /** `sentence.strip()`. */
  function Strip(s: string): string
    decreases |s|
  {
    if s == "" then ""
    else if IsSpace(s[0]) then Strip(s[1..])
    else if IsSpace(s[|s| - 1]) then Strip(s[..|s| - 1])
    else s
  }

  /** Where the first double quote stands, or the length if there is none. */
  function QuoteAt(s: string): (i: nat)
    ensures i <= |s|
    ensures i < |s| ==> s[i] == '"'
    ensures forall j :: 0 <= j < i ==> s[j] != '"'
  {
    if s == "" || s[0] == '"' then 0 else 1 + QuoteAt(s[1..])
  }

  /** How many characters come before the first space. */
  function WordLength(s: string): (n: nat)
    ensures n <= |s|
    ensures n < |s| ==> IsSpace(s[n])
    ensures forall j :: 0 <= j < n ==> !IsSpace(s[j])
  {
    if s == "" || IsSpace(s[0]) then 0 else 1 + WordLength(s[1..])
  }

  /** `re.findall(r'"[^"]*"|\S+', s)`. */
  function FindAll(s: string): seq<string>
    decreases |s|
  {
    if s == "" then []
    else if s[0] == '"' && QuoteAt(s[1..]) < |s| - 1 then
      var n := QuoteAt(s[1..]) + 2;
      [s[..n]] + FindAll(s[n..])
    else if IsSpace(s[0]) then FindAll(s[1..])
    else
      var n := WordLength(s);
      [s[..n]] + FindAll(s[n..])
  }

  /** A full stop ends the sentence, not the last token. */
  function DropStop(tokens: seq<string>): seq<string>
  {
    if tokens == [] then tokens
    else
      var last := tokens[|tokens| - 1];
      if last != "" && last[|last| - 1] == '.' then
        tokens[..|tokens| - 1] + if |last| > 1 then [last[..|last| - 1]] else []
      else tokens
  }

  function TokensOf(sentence: string): seq<string>
  {
    DropStop(FindAll(Strip(sentence)))
  }

  method Tokenize(sentence: string) returns (tokens: seq<string>)
    ensures tokens == TokensOf(sentence)
  {
    tokens := FindAll(Strip(sentence));
    if tokens != [] {
      var n := |tokens| - 1;
      var last := tokens[n];
      if last != "" && last[|last| - 1] == '.' && last[|last| - 1] != '"' {
        var stripped := last[..|last| - 1];
        tokens := tokens[..n] + if stripped != "" then [stripped] else [];
      }
    }
  }

  // ------------------------------------------------------------------ what can be written down
  predicate IsQuoted(t: string)
  {
    |t| >= 2 && t[0] == '"' && t[|t| - 1] == '"'
  }

  predicate NoQuote(s: string)
  {
    forall i :: 0 <= i < |s| ==> s[i] != '"'
  }

  predicate NoSpace(s: string)
  {
    forall i :: 0 <= i < |s| ==> !IsSpace(s[i])
  }

  /** A token a sentence can carry: a quoted literal, or a word that opens no quote. */
  predicate Lexable(t: string)
  {
    if t != "" && t[0] == '"' then IsQuoted(t) && NoQuote(t[1..|t| - 1]) else t != "" && NoSpace(t)
  }

  predicate AllLexable(ts: seq<string>)
  {
    forall i :: 0 <= i < |ts| ==> Lexable(ts[i])
  }

  /** Tokens joined by single spaces. */
  function Sentence(ts: seq<string>): string
  {
    if ts == [] then "" else if |ts| == 1 then ts[0] else ts[0] + " " + Sentence(ts[1..])
  }

  lemma {:induction false} QuoteAtIs(s: string, n: nat)
    requires n < |s| && s[n] == '"' && forall j :: 0 <= j < n ==> s[j] != '"'
    ensures QuoteAt(s) == n
  {
    if n > 0 {
      QuoteAtIs(s[1..], n - 1);
    }
  }

  lemma {:induction false} WordLengthIs(s: string, n: nat)
    requires n <= |s| && (n < |s| ==> IsSpace(s[n])) && forall j :: 0 <= j < n ==> !IsSpace(s[j])
    ensures WordLength(s) == n
  {
    if n > 0 {
      WordLengthIs(s[1..], n - 1);
    }
  }

  /** A lexable token at the front of a text, followed by nothing, a space, or - after a quoted
      literal - anything, is found as itself. */
  lemma FindFirst(t: string, rest: string)
    requires Lexable(t) && (rest == "" || IsSpace(rest[0]) || t[0] == '"')
    ensures FindAll(t + rest) == [t] + FindAll(rest)
  {
    var s := t + rest;
    if t[0] == '"' {
      var n := |t| - 2;
      assert forall j :: 0 <= j < n ==> s[1..][j] == t[1..|t| - 1][j];
      assert s[1..][n] == '"';
      QuoteAtIs(s[1..], n);
      assert s[..|t|] == t && s[|t|..] == rest;
    } else {
      WordLengthIs(s, |t|);
      assert s[..|t|] == t && s[|t|..] == rest;
      assert !IsSpace(s[0]);
    }
  }

  lemma {:induction false} FindAllOfSentence(ts: seq<string>)
    requires AllLexable(ts)
    ensures FindAll(Sentence(ts)) == ts
  {
    if |ts| == 1 {
      FindFirst(ts[0], "");
      assert ts[0] + "" == ts[0];
    } else if |ts| > 1 {
      var rest := Sentence(ts[1..]);
      FindAllOfSentence(ts[1..]);
      FindFirst(ts[0], " " + rest);
      assert ts[0] + " " + rest == ts[0] + (" " + rest);
      assert (" " + rest)[1..] == rest;
    }
  }

  /** What is found when a full stop follows the last token. */
  function Stopped(ts: seq<string>): seq<string>
    requires ts != []
  {
    if |ts| > 1 then [ts[0]] + Stopped(ts[1..])
    else if IsQuoted(ts[0]) then [ts[0], "."]
    else [ts[0] + "."]
  }

  lemma FindOneWithStop(t: string)
    requires Lexable(t)
    ensures FindAll(t + ".") == Stopped([t])
  {
    if t[0] == '"' {
      FindFirst(t, ".");
      FindFirst(".", "");
      assert "." + "" == ".";
      assert FindAll(".") == ["."] + FindAll("");
    } else {
      FindFirst(t + ".", "");
      assert t + "." + "" == t + ".";
    }
  }

  lemma {:induction false} FindAllWithStop(ts: seq<string>)
    requires AllLexable(ts) && ts != []
    ensures FindAll(Sentence(ts) + ".") == Stopped(ts)
  {
    if |ts| == 1 {
      FindOneWithStop(ts[0]);
      assert ts == [ts[0]];
    } else {
      var rest := Sentence(ts[1..]) + ".";
      FindAllWithStop(ts[1..]);
      FindFirst(ts[0], " " + rest);
      assert Sentence(ts) + "." == ts[0] + (" " + rest);
      assert (" " + rest)[1..] == rest;
    }
  }

  function StoppedLast(t: string): seq<string>
  {
    if IsQuoted(t) then [t, "."] else [t + "."]
  }

  lemma {:induction false} StoppedIs(ts: seq<string>)
    requires ts != []
    ensures Stopped(ts) == ts[..|ts| - 1] + StoppedLast(ts[|ts| - 1])
  {
    hide IsQuoted;
    if |ts| > 1 {
      StoppedIs(ts[1..]);
      assert ts[..|ts| - 1] == [ts[0]] + ts[1..][..|ts| - 2];
    }
  }

  lemma DropStopped(ts: seq<string>)
    requires AllLexable(ts) && ts != []
    ensures DropStop(Stopped(ts)) == ts
  {
    var before, last := ts[..|ts| - 1], ts[|ts| - 1];
    StoppedIs(ts);
    assert Lexable(last);
    assert ts == before + [last];
    if IsQuoted(last) {
      assert (before + [last, "."])[..|ts|] == ts;
    } else {
      assert (before + [last + "."])[..|before|] == before;
      assert (last + ".")[..|last|] == last;
    }
  }

  lemma {:induction false} SentenceEnds(ts: seq<string>)
    requires AllLexable(ts) && ts != []
    ensures var s := Sentence(ts);
            s != "" && !IsSpace(s[0]) && !IsSpace(s[|s| - 1]) && s[|s| - 1] == ts[|ts| - 1][|ts[|ts| - 1]| - 1]
  {
    if |ts| > 1 {
      SentenceEnds(ts[1..]);
      var rest := Sentence(ts[1..]);
      assert Sentence(ts)[|Sentence(ts)| - 1] == rest[|rest| - 1];
    }
  }

  /** The tokenizer undoes writing tokens down under a final full stop; without one, exactly when the
      last token does not itself end in a full stop. */
  lemma TokensOfSentence(ts: seq<string>)
    requires AllLexable(ts) && ts != []
    ensures TokensOf(Sentence(ts) + ".") == ts
    ensures TokensOf(Sentence(ts)) == ts <==> ts[|ts| - 1][|ts[|ts| - 1]| - 1] != '.'
  {
    var s := Sentence(ts);
    SentenceEnds(ts);
    FindAllWithStop(ts);
    DropStopped(ts);
    FindAllOfSentence(ts);
    assert Strip(s) == s && Strip(s + ".") == s + ".";
    var last := ts[|ts| - 1];
    if last[|last| - 1] == '.' && |last| > 1 {
      assert DropStop(ts)[|ts| - 1] == last[..|last| - 1];
    }
  }
}
