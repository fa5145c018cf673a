/**
 * How a POSIX shell splits a command line into words, for the part of the
 * Shell Command Language the launcher relies on: blanks separate words,
 * single quotes preserve every character up to the next single quote
 * (POSIX.1-2017 Shell Command Language, section 2.2.2 "Single-Quotes"),
 * and a backslash outside quotes preserves the next character (section
 * 2.2.1). Any other unquoted character that the shell treats specially
 * (`$`, `"`, `;`, `*`, ...) is outside this subset, and splitting then
 * gives None.
 */
module PosixShell {
  import opened Wrappers

  predicate IsBlank(c: char) { c == ' ' || c == '\t' || c == '\n' }

  /** Characters that stand for themselves anywhere in an unquoted word. */
  predicate IsPlainChar(c: char) {
    ('a' <= c <= 'z') || ('A' <= c <= 'Z') || ('0' <= c <= '9')
    || c == '-' || c == '_' || c == '.' || c == '/' || c == ',' || c == ':' || c == '+' || c == '@'
  }

  predicate IsPlainWord(w: string) {
    |w| > 0 && forall i :: 0 <= i < |w| ==> IsPlainChar(w[i])
  }

  /** Puts the word being built (if one was started) in front of the words that follow. */
  function Prepend(cur: Option<string>, rest: Option<seq<string>>): Option<seq<string>> {
    match cur
    case None => rest
    case Some(w) => if rest.Some? then Some([w] + rest.value) else None
  }

  /** The words of `s`, outside quotes, with `cur` the word started so far. */
  function Split(s: string, cur: Option<string>): Option<seq<string>>
    decreases |s|
  {
    if |s| == 0 then Prepend(cur, Some([]))
    else if IsBlank(s[0]) then Prepend(cur, Split(s[1..], None))
    else if s[0] == '\'' then InQuotes(s[1..], cur.UnwrapOr(""))
    else if s[0] == '\\' then
      if |s| >= 2 && s[1] != '\n' then Split(s[2..], Some(cur.UnwrapOr("") + [s[1]])) else None
    else if IsPlainChar(s[0]) then Split(s[1..], Some(cur.UnwrapOr("") + [s[0]]))
    else None
  }

  /** The words of `s`, inside single quotes, with `cur` the word so far. */
  function InQuotes(s: string, cur: string): Option<seq<string>>
    decreases |s|
  {
    if |s| == 0 then None
    else if s[0] == '\'' then Split(s[1..], Some(cur))
    else InQuotes(s[1..], cur + [s[0]])
  }

  function Words(s: string): Option<seq<string>> {
    Split(s, None)
  }

  /** A plain word in front of the rest of the line just extends the word being built. */
  lemma {:induction false} SplitPlain(w: string, rest: string, cur: Option<string>)
    requires IsPlainWord(w)
    ensures Split(w + rest, cur) == Split(rest, Some(cur.UnwrapOr("") + w))
    decreases |w|
  {
    var s := w + rest;
    assert s[0] == w[0] && s[1..] == w[1..] + rest;
    if |w| == 1 {
      assert s[1..] == rest && w == [w[0]];
    } else {
      var next := Some(cur.UnwrapOr("") + [w[0]]);
      assert IsPlainWord(w[1..]) by {
        forall i | 0 <= i < |w[1..]| ensures IsPlainChar(w[1..][i]) {
          assert w[1..][i] == w[i + 1];
        }
      }
      SplitPlain(w[1..], rest, next);
      assert next.UnwrapOr("") + w[1..] == cur.UnwrapOr("") + w;
    }
  }
}
