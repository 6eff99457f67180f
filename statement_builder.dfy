/**
 * The SQL text builder shared by the schema compiler and the query criteria
 * (orm/internal/StatementBuilder.java).
 *
 * The builder owns a growing buffer; every append method adds a fixed
 * fragment to its end and `ToString` hands the buffer back trimmed. The
 * fragments are given once here, as functions, and the class methods are
 * proved to append exactly them.
 */
module StatementText {
  import opened Text

  /** What `appendWord(w)` adds: a space, then the word. */
  function WordText(w: string): string { " " + w }

  /** What `appendBetweenBracket(e)` adds. */
  function BetweenBracketText(e: string): string { " (" + e + ") " }

  const OpenBracketText: string := " ( "
  const CloseBracketText: string := " )"

  /** What `appendWithSeparator(items, sep)` adds: the items, each but the first preceded by a space and `sep`. */
  function SeparatedText(items: seq<string>, sep: char): string {
    Join(items, [' ', sep])
  }

  /** What appending each word in turn with `appendWord` adds. */
  function Words(ws: seq<string>): string
    decreases |ws|
  {
    if ws == [] then "" else Words(ws[..|ws| - 1]) + WordText(ws[|ws| - 1])
  }

  lemma WordsSnoc(ws: seq<string>, w: string)
    ensures Words(ws + [w]) == Words(ws) + WordText(w)
  {
    assert (ws + [w])[..|ws|] == ws;
  }

  /** One more word appended after a buffer that already ends with some words. */
  lemma WordsStep(start: string, ws: seq<string>, w: string)
    ensures start + Words(ws) + WordText(w) == start + Words(ws + [w])
  {
    WordsSnoc(ws, w);
    AppendAssociates2(start, Words(ws), WordText(w));
  }

  /** Appending two lists of words is appending their concatenation. */
  lemma {:induction false} WordsAppend(a: seq<string>, b: seq<string>)
    ensures Words(a + b) == Words(a) + Words(b)
    decreases |b|
  {
    if b == [] {
      assert a + b == a;
    } else {
      var init, last := b[..|b| - 1], b[|b| - 1];
      assert a + b == (a + init) + [last];
      WordsSnoc(a + init, last);
      WordsAppend(a, init);
      AppendAssociates2(Words(a), Words(init), WordText(last));
    }
  }

  /** A few words, written out. */
  lemma WordsLiteral(a: string, b: string, c: string)
    ensures Words([a]) == " " + a
    ensures Words([a, b]) == " " + a + " " + b
    ensures Words([a, b, c]) == " " + a + " " + b + " " + c
  {
    WordsSnoc([], a);
    WordsSnoc([a], b);
    WordsSnoc([a, b], c);
    assert [a] + [b] == [a, b];
    assert [a, b] + [c] == [a, b, c];
    assert "" + WordText(a) == " " + a;
  }

  /** Words appended one at a time are, after one blank, the words joined by blanks. */
  lemma {:induction false} WordsJoin(ws: seq<string>)
    requires ws != []
    ensures Words(ws) == " " + Join(ws, " ")
    decreases |ws|
  {
    if |ws| == 1 {
      assert ws[..0] == [];
    } else {
      var init, last := ws[..|ws| - 1], ws[|ws| - 1];
      WordsJoin(init);
      var j := Join(init, " ");
      AppendAssociates2(" " + j, " ", last);
      AppendAssociates(" ", j, " ", last);
    }
  }

  /** A buffer of words that starts visibly trims to the joined words with only the end trimmed. */
  lemma TrimWords(ws: seq<string>, z: string)
    requires ws != [] && ws[0] != [] && !IsTrimmable(ws[0][0])
    ensures Trim(Words(ws) + z) == TrimEnd(Join(ws, " ") + z)
  {
    var j := Join(ws, " ");
    WordsJoin(ws);
    JoinStart(ws, " ");
    AppendAssociates2(" ", j, z);
    assert (j + z)[0] == j[0];
    TrimLeadingBlank(j + z);
  }

  /** Appending a word keeps the old buffer as a prefix and adds `|w| + 1` characters. */
  lemma WordExtends(buffer: string, w: string)
    ensures IsPrefix(buffer, buffer + WordText(w))
    ensures |buffer + WordText(w)| == |buffer| + |w| + 1
    ensures (buffer + WordText(w))[|buffer|] == ' '
  {
    assert (buffer + WordText(w))[..|buffer|] == buffer;
  }

  /** A bracketed expression is the bracket text, then the blank that follows it. */
  lemma BracketSplit(e: string)
    ensures BetweenBracketText(e) == " (" + e + ")" + " "
  {
  }

  /** Two words and a bracketed expression, regrouped around their first blank. */
  lemma Regroup(a: string, b: string, c: string, z: string)
    ensures (" " + a) + (" " + b) + (c + " ") + z == " " + (a + " " + (b + c)) + (" " + z)
  {
  }

  /** An empty item list appends nothing; a single item is appended alone. */
  lemma SeparatedSmall(sep: char, x: string)
    ensures SeparatedText([], sep) == ""
    ensures SeparatedText([x], sep) == x
  {
  }

  /**
   * n >= 1 items that do not contain the separator character produce exactly
   * n - 1 separators.
   */
  lemma SeparatorCount(items: seq<string>, sep: char)
    requires items != [] && NoChar(items, sep) && sep != ' '
    ensures CountChar(SeparatedText(items, sep), sep) == |items| - 1
  {
    assert CountChar([' '], sep) == 0;
    assert [' ', sep][..1] == [' '];
    JoinSeparatorCount(items, [' ', sep], sep);
  }

  /** The builder's `toString` never starts or ends with a trimmable character. */
  lemma ToStringHasNoOuterBlanks(buffer: string)
    ensures Trim(buffer) != [] ==> !IsTrimmable(Trim(buffer)[0]) && !IsTrimmable(Trim(buffer)[|Trim(buffer)| - 1])
  {
    var i, j := TrimIsTrimmedSlice(buffer);
  }
}

/** orm/internal/StatementBuilder.java. */
module InternalStatementBuilder {
  import opened Text
  import opened StatementText

  class StatementBuilder {
    var buffer: string

    constructor ()
      ensures buffer == ""
    {
      buffer := "";
    }

    method AppendWord(word: string)
      modifies this
      ensures buffer == old(buffer) + WordText(word)
    {
      buffer := buffer + " " + word;
    }

    method AppendBetweenBracket(exp: string)
      modifies this
      ensures buffer == old(buffer) + BetweenBracketText(exp)
    {
      buffer := buffer + " (" + exp + ") ";
    }

    method OpenBracket()
      modifies this
      ensures buffer == old(buffer) + OpenBracketText
    {
      buffer := buffer + " ( ";
    }

    method AppendWithSeparator(expressions: seq<string>, separator: char)
      modifies this
      ensures buffer == old(buffer) + SeparatedText(expressions, separator)
    {
      var i := 0;
      while i < |expressions|
        invariant 0 <= i <= |expressions|
        invariant buffer == old(buffer) + SeparatedText(expressions[..i], separator)
      {
        if i > 0 {
          buffer := buffer + [' '];
          buffer := buffer + [separator];
        }
        buffer := buffer + expressions[i];
        assert expressions[..i + 1][..i] == expressions[..i];
        i := i + 1;
      }
      assert expressions[..i] == expressions;
    }

    method CloseBracket()
      modifies this
      ensures buffer == old(buffer) + CloseBracketText
    {
      buffer := buffer + " )";
    }

    /** `toString`: the trimmed buffer. */
    method ToString() returns (s: string)
      ensures s == Trim(buffer)
      ensures s != [] ==> !IsTrimmable(s[0]) && !IsTrimmable(s[|s| - 1])
    {
      ToStringHasNoOuterBlanks(buffer);
      s := Trim(buffer);
    }
  }
}

/** orm/processor/dll/StatementBuilder.java: the copy kept beside the schema builders. */
module DllStatementBuilder {
  import opened Text
  import opened StatementText

  class StatementBuilder {
    var buffer: string

    constructor ()
      ensures buffer == ""
    {
      buffer := "";
    }

    method AppendWord(word: string)
      modifies this
      ensures buffer == old(buffer) + WordText(word)
    {
      buffer := buffer + " " + word;
    }

    method AppendBetweenBracket(exp: string)
      modifies this
      ensures buffer == old(buffer) + BetweenBracketText(exp)
    {
      buffer := buffer + " (" + exp + ") ";
    }

    method OpenBracket()
      modifies this
      ensures buffer == old(buffer) + OpenBracketText
    {
      buffer := buffer + " ( ";
    }

    method AppendWithSeparator(strings: seq<string>, separator: char)
      modifies this
      ensures buffer == old(buffer) + SeparatedText(strings, separator)
    {
      for i := 0 to |strings|
        invariant buffer == old(buffer) + SeparatedText(strings[..i], separator)
      {
        if i > 0 {
          buffer := buffer + [' '];
          buffer := buffer + [separator];
        }
        buffer := buffer + strings[i];
        assert strings[..i + 1][..i] == strings[..i];
      }
      assert strings[..|strings|] == strings;
    }

    method CloseBracket()
      modifies this
      ensures buffer == old(buffer) + CloseBracketText
    {
      buffer := buffer + " )";
    }

    /** `toString`: the trimmed buffer. */
    method ToString() returns (s: string)
      ensures s == Trim(buffer)
      ensures s != [] ==> !IsTrimmable(s[0]) && !IsTrimmable(s[|s| - 1])
    {
      ToStringHasNoOuterBlanks(buffer);
      s := Trim(buffer);
    }
  }
}
