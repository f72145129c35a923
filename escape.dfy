/**
 * Embedding a title in the inline `onclick` handler of a card: the title is
 * written between single quotes as a JavaScript string literal, after
 * `title.replace(/'/g, "\\'")`.
 */
module Escape {
  import opened Optional

  /** The number of single quotes in `s`. */
  function QuoteCount(s: string): nat
  {
    if s == [] then 0 else (if s[0] == '\'' then 1 else 0) + QuoteCount(s[1..])
  }

  /** `s.replace(/'/g, "\\'")`: every single quote gets a backslash in front of it. */
  function EscapeQuotes(s: string): (r: string)
    ensures |r| == |s| + QuoteCount(s)
    ensures s == [] <==> r == []
    ensures r != [] ==> r[0] != '\''
  {
    if s == [] then [] else (if s[0] == '\'' then "\\'" else [s[0]]) + EscapeQuotes(s[1..])
  }

  /** Every single quote in `r` follows a backslash, so none can end the literal. */
  predicate QuotesEscaped(r: string)
  {
    forall i :: 0 <= i < |r| && r[i] == '\'' ==> 0 < i && r[i - 1] == '\\'
  }

  /** The escaped text holds no bare single quote. */
  lemma {:induction false} EscapedQuotesFollowBackslash(s: string)
    ensures QuotesEscaped(EscapeQuotes(s))
  {
    if s != [] {
      EscapedQuotesFollowBackslash(s[1..]);
      var head := if s[0] == '\'' then "\\'" else [s[0]];
      var rest := EscapeQuotes(s[1..]);
      assert EscapeQuotes(s) == head + rest;
      forall i | 0 <= i < |head + rest| && (head + rest)[i] == '\''
        ensures 0 < i && (head + rest)[i - 1] == '\\'
      {
        if i > |head| {
          var j := i - |head|;
          assert rest[j] == '\'';
          assert 0 < j && rest[j - 1] == '\\';
          assert (head + rest)[i - 1] == rest[j - 1];
        } else if s[0] == '\'' {
          assert head == ['\\', '\''];
          assert (head + rest)[0] == '\\';
        }
      }
    }
  }

  /** Removes each backslash that stands right before a single quote. */
  function DropQuoteBackslashes(r: string): string
  {
    if r == [] then []
    else if |r| >= 2 && r[0] == '\\' && r[1] == '\'' then "'" + DropQuoteBackslashes(r[2..])
    else [r[0]] + DropQuoteBackslashes(r[1..])
  }

  /** Removing the inserted backslashes gives back the original text. */
  lemma {:induction false} DropQuoteBackslashesOfEscape(s: string)
    ensures DropQuoteBackslashes(EscapeQuotes(s)) == s
  {
    if s != [] {
      DropQuoteBackslashesOfEscape(s[1..]);
      var rest := EscapeQuotes(s[1..]);
      if s[0] == '\'' {
        assert EscapeQuotes(s) == "\\'" + rest;
        assert ("\\'" + rest)[2..] == rest;
      } else {
        assert EscapeQuotes(s) == [s[0]] + rest;
        assert ([s[0]] + rest)[1..] == rest;
      }
    }
  }

  /** A single-quote-free title is embedded unchanged. */
  lemma {:induction false} EscapeQuotesWithoutQuotes(s: string)
    requires QuoteCount(s) == 0
    ensures EscapeQuotes(s) == s
  {
    if s != [] {
      EscapeQuotesWithoutQuotes(s[1..]);
    }
  }

  /**
   * The value of the single-quoted JavaScript string literal whose body is
   * `body`. The escapes `\'`, `\"`, `\\`, `\n` and `\r` are decoded; the
   * result is None when a bare quote ends the literal early, when a raw
   * line break or a dangling backslash leaves it unterminated, and for any
   * other escape sequence, which this model does not decode.
   */
  function DecodeLiteral(body: string): Option<string>
  {
    if body == [] then Some([])
    else if body[0] == '\'' || body[0] == '\n' || body[0] == '\r' then None
    else if body[0] == '\\' then
      if |body| < 2 then None
      else
        var c := body[1];
        var value := if c == 'n' then '\n' else if c == 'r' then '\r' else c;
        if c == '\'' || c == '"' || c == '\\' || c == 'n' || c == 'r' then
          match DecodeLiteral(body[2..])
          case None => None
          case Some(t) => Some([value] + t)
        else None
    else
      match DecodeLiteral(body[1..])
      case None => None
      case Some(t) => Some([body[0]] + t)
  }

  /** The as-written escape leaves a backslash alone: the title `\` yields the literal `'\'`, which never ends. */
  lemma EscapeQuotesLosesBackslash()
    ensures EscapeQuotes("\\") == "\\"
    ensures DecodeLiteral(EscapeQuotes("\\")) == None
  {
    assert EscapeQuotes("\\") == "\\" + EscapeQuotes([]);
  }

  /** Escaping of one character in a single-quoted JavaScript literal. */
  function EscapeChar(c: char): string
  {
    if c == '\'' then "\\'"
    else if c == '\\' then "\\\\"
    else if c == '\n' then "\\n"
    else if c == '\r' then "\\r"
    else [c]
  }

  /** The corrected escape: backslashes and line breaks are escaped as well as quotes. */
  function EscapeLiteral(s: string): (r: string)
    ensures |r| >= |s|
  {
    if s == [] then [] else EscapeChar(s[0]) + EscapeLiteral(s[1..])
  }

  /** Decoding an escaped character followed by a decodable rest yields that character first. */
  lemma DecodeEscapeCharThen(c: char, rest: string, t: string)
    requires DecodeLiteral(rest) == Some(t)
    ensures DecodeLiteral(EscapeChar(c) + rest) == Some([c] + t)
  {
    var e := EscapeChar(c);
    var body := e + rest;
    if c == '\'' || c == '\\' || c == '\n' || c == '\r' {
      assert |e| == 2 && e[0] == '\\';
      assert body[0] == '\\' && body[1] == e[1];
      assert body[2..] == rest;
    } else {
      assert e == [c];
      assert body[0] == c;
      assert body[1..] == rest;
    }
  }

  /** The literal written by the corrected escape always decodes to the title. */
  lemma {:induction false} DecodeEscapeLiteral(s: string)
    ensures DecodeLiteral(EscapeLiteral(s)) == Some(s)
  {
    if s != [] {
      DecodeEscapeLiteral(s[1..]);
      DecodeEscapeCharThen(s[0], EscapeLiteral(s[1..]), s[1..]);
      assert s == [s[0]] + s[1..];
    }
  }

  /** A text without backslashes and line breaks. */
  predicate PlainText(s: string)
  {
    forall i :: 0 <= i < |s| ==> s[i] != '\\' && s[i] != '\n' && s[i] != '\r'
  }

  /** For titles without backslashes or line breaks, the corrected escape is the as-written one. */
  lemma {:induction false} EscapeLiteralAgrees(s: string)
    requires PlainText(s)
    ensures EscapeLiteral(s) == EscapeQuotes(s)
  {
    if s != [] {
      EscapeLiteralAgrees(s[1..]);
    }
  }

  /** Hence the as-written escape is sound on every title without a backslash or line break. */
  lemma EscapeQuotesSoundWithoutBackslash(s: string)
    requires PlainText(s)
    ensures DecodeLiteral(EscapeQuotes(s)) == Some(s)
  {
    EscapeLiteralAgrees(s);
    DecodeEscapeLiteral(s);
  }

  /** What the as-written escape guarantees about the text it embeds. */
  lemma EscapeQuotesEmbeds(s: string)
    ensures QuotesEscaped(EscapeQuotes(s))
    ensures DropQuoteBackslashes(EscapeQuotes(s)) == s
    ensures PlainText(s) ==> DecodeLiteral(EscapeQuotes(s)) == Some(s)
  {
    EscapedQuotesFollowBackslash(s);
    DropQuoteBackslashesOfEscape(s);
    if PlainText(s) {
      EscapeQuotesSoundWithoutBackslash(s);
    }
  }

  /**
   * Whenever the as-written literal decodes at all, its value is no longer
   * than the title, and strictly shorter when the title holds a backslash
   * or a line break.
   */
  lemma {:induction false} DecodeEscapeQuotesShrinks(u: string, v: string)
    requires DecodeLiteral(EscapeQuotes(u)) == Some(v)
    ensures |v| <= |u|
    ensures !PlainText(u) ==> |v| < |u|
    decreases |u|
  {
    if u != [] {
      var rest := EscapeQuotes(u[1..]);
      if u[0] == '\'' {
        assert EscapeQuotes(u) == "\\'" + rest;
        assert ("\\'" + rest)[2..] == rest;
        var t := DecodeLiteral(rest).value;
        assert v == "'" + t;
        DecodeEscapeQuotesShrinks(u[1..], t);
        if !PlainText(u) {
          var i :| 0 <= i < |u| && (u[i] == '\\' || u[i] == '\n' || u[i] == '\r');
          assert u[1..][i - 1] == u[i];
        }
      } else if u[0] == '\\' {
        assert EscapeQuotes(u) == [u[0]] + rest;
        var body := [u[0]] + rest;
        assert |body| >= 2;
        var tail := u[1..];
        var more := EscapeQuotes(tail[1..]);
        if tail[0] == '\\' {
          assert rest == [tail[0]] + more;
          assert body[1] == '\\' && body[2..] == more;
          var t := DecodeLiteral(more).value;
          assert v == "\\" + t;
          DecodeEscapeQuotesShrinks(tail[1..], t);
        } else {
          assert tail[0] != '\'';
          assert rest == [tail[0]] + more;
          assert body[1] == tail[0] && body[2..] == more;
          var t := DecodeLiteral(more).value;
          assert |v| == 1 + |t|;
          DecodeEscapeQuotesShrinks(tail[1..], t);
        }
      } else {
        assert EscapeQuotes(u) == [u[0]] + rest;
        assert ([u[0]] + rest)[1..] == rest;
        var t := DecodeLiteral(rest).value;
        assert v == [u[0]] + t;
        DecodeEscapeQuotesShrinks(u[1..], t);
        if !PlainText(u) {
          var i :| 0 <= i < |u| && (u[i] == '\\' || u[i] == '\n' || u[i] == '\r');
          assert u[1..][i - 1] == u[i];
        }
      }
    }
  }

  /** The as-written escape is sound exactly on the titles without a backslash or line break. */
  lemma EscapeQuotesSoundExactly(s: string)
    ensures DecodeLiteral(EscapeQuotes(s)) == Some(s) <==> PlainText(s)
  {
    if PlainText(s) {
      EscapeQuotesSoundWithoutBackslash(s);
    } else if DecodeLiteral(EscapeQuotes(s)).Some? {
      DecodeEscapeQuotesShrinks(s, DecodeLiteral(EscapeQuotes(s)).value);
    }
  }
}
