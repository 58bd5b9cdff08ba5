/** Strings and the texts between double quotes that mean them: a line feed, a carriage return and a tab
    are written with a backslash, and every string without a backslash right before an n, an r or a t can
    be written. */
module Escapes {
  import opened Options
  import opened Kson
  import opened Reading
  import opened RoundTrip
  import opened ReadBack

  const LINE_FEED := 10 as char
  const CARRIAGE_RETURN := 13 as char
  const TAB := 9 as char
  const BACKSLASH := 92 as char

  /** How one character is written. */
  function Spelling(c: char): string {
    if c == LINE_FEED then [BACKSLASH, 'n']
    else if c == CARRIAGE_RETURN then [BACKSLASH, 'r']
    else if c == TAB then [BACKSLASH, 't']
    else [c]
  }

  /** How a string is written. */
  function Escaped(s: string): string {
    if s == "" then "" else Spelling(s[0]) + Escaped(s[1..])
  }

  /** No backslash stands right before an n, an r or a t. */
  predicate Writable(s: string) {
    forall i | 0 <= i < |s| - 1 :: s[i] == BACKSLASH ==> s[i + 1] != 'n' && s[i + 1] != 'r' && s[i + 1] != 't'
  }

  lemma WritableIs(s: string)
    ensures Writable(s) <==> NoEscape(s)
  {
    forall i | 0 <= i < |s|
      ensures StartsEscape(s[i..]) <==> i < |s| - 1 && s[i] == BACKSLASH && (s[i + 1] == 'n' || s[i + 1] == 'r' || s[i + 1] == 't')
    {
    }
  }

  lemma WritableTail(s: string)
    requires s != "" && Writable(s)
    ensures Writable(s[1..])
  {
  }

  /** The first character of an escaped string is the first escape, or the first character and never the
      start of an escape. */
  lemma EscapedFirst(s: string)
    requires s != "" && Writable(s)
    ensures var t := Escaped(s);
      t != "" && FirstMeant(t) == s[0] && t[if StartsEscape(t) then 2 else 1..] == Escaped(s[1..])
  {
    var rest := Escaped(s[1..]);
    assert ([BACKSLASH, 'n'] + rest)[2..] == rest && ([BACKSLASH, 'r'] + rest)[2..] == rest && ([BACKSLASH, 't'] + rest)[2..] == rest;
    assert ([s[0]] + rest)[1..] == rest;
    if |s| > 1 {
      assert rest == Spelling(s[1]) + Escaped(s[2..]) by {
        assert s[1..][1..] == s[2..];
      }
    }
  }

  /** What is escaped is meant. */
  lemma {:induction false} EscapedMeans(s: string)
    requires Writable(s)
    ensures Unescape(Escaped(s)) == s
  {
    hide Writable;
    if s != "" {
      WritableTail(s);
      EscapedMeans(s[1..]);
      EscapedFirst(s);
      assert s == [s[0]] + s[1..];
    }
  }

  /** No text means a string with a backslash right before an n, an r or a t. */
  lemma {:induction false} MeantIsWritable(t: string)
    ensures Writable(Unescape(t))
  {
    if t != "" {
      var used := if StartsEscape(t) then 2 else 1;
      var rest := t[used..];
      MeantIsWritable(rest);
      var u := Unescape(t);
      assert u == [FirstMeant(t)] + Unescape(rest) && u[1..] == Unescape(rest);
      if |u| > 1 && u[0] == BACKSLASH {
        assert used == 1 && rest != "" && t[1] == rest[0] && u[1] == FirstMeant(rest);
      }
      forall i | 0 <= i < |u| - 1
        ensures u[i] == BACKSLASH ==> u[i + 1] != 'n' && u[i + 1] != 'r' && u[i + 1] != 't'
      {
        if i > 0 {
          assert u[i] == u[1..][i - 1] && u[i + 1] == u[1..][i];
        }
      }
    }
  }

  /** A string has a text that means it exactly if it is writable, and then its escaped form is one, and it
      means itself too. */
  lemma WhatCanBeWritten(s: string)
    ensures (exists t :: Unescape(t) == s) <==> Writable(s)
    ensures Unescape(Escaped(s)) == s <==> Writable(s)
    ensures Unescape(s) == s <==> Writable(s)
  {
    hide Writable;
    WritableIs(s);
    StringMeansItself(s);
    if t :| Unescape(t) == s {
      MeantIsWritable(t);
    }
    if Writable(s) {
      EscapedMeans(s);
    }
    MeantIsWritable(Escaped(s));
  }

  lemma {:induction false} EscapedHolds(s: string, c: char)
    requires c != BACKSLASH && c != 'n' && c != 'r' && c != 't' && c != LINE_FEED && c != CARRIAGE_RETURN && c != TAB
    ensures c in Escaped(s) <==> c in s
  {
    if s != "" {
      EscapedHolds(s[1..], c);
      assert s == [s[0]] + s[1..];
    }
  }

  /** A string between quotation marks in a list, or in a file: what is read is what the text means. So
      every writable string without a quotation mark is read from its escaped form, and no other string
      from any text. */
  lemma StringIsRead(s: string, t: string)
    requires '"' !in s && NUL !in s && '"' !in t && NUL !in t
    ensures Writable(s) ==> Parse("[" + ("\"" + Escaped(s) + "\"") + "\n]", Empty) == (Finished, Empty.(root := Some(List([Str(s)]))))
    ensures Parse("[" + ("\"" + t + "\"") + "\n]", Empty) == (Finished, Empty.(root := Some(List([Str(s)])))) <==> Unescape(t) == s
    ensures !Writable(s) ==> Parse("[" + ("\"" + t + "\"") + "\n]", Empty) != (Finished, Empty.(root := Some(List([Str(s)]))))
  {
    hide Parse, Writable, Escaped, Unescape;
    QuotedIsRead(t);
    WhatCanBeWritten(s);
    EscapedHolds(s, '"');
    EscapedHolds(s, NUL);
    QuotedIsRead(Escaped(s));
    assert List([Str(Unescape(t))]) == List([Str(s)]) <==> Unescape(t) == s by {
      assert [Str(Unescape(t))][0] == Str(Unescape(t)) && [Str(s)][0] == Str(s);
    }
  }

  lemma QuotedIsRead(t: string)
    requires '"' !in t && NUL !in t
    ensures Parse("[" + ("\"" + t + "\"") + "\n]", Empty) == (Finished, Empty.(root := Some(List([Str(Unescape(t))]))))
  {
    hide Parse, Print, Unescape;
    var v := Str(t);
    FileReadsBack(v, false, 0, "", _ => "");
    PrintAtom(v, false, 0, "", _ => "");
  }
}
