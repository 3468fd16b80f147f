/**
 * `strtok_r` over one delimiter character: the non-empty runs between
 * delimiters, in order. Runs of delimiters, and delimiters at either end,
 * produce no empty tokens. Used for the argument patterns of the device
 * function catalog (src/codegen.c:645-682) and for the comma-separated
 * min/max statistics of Arrow fields (next/arrow_fdw.c:689-694).
 */
module StrTok {

  /** A token holds no delimiter and is never empty. */
  predicate IsToken(t: string, sep: char)
  {
    |t| > 0 && sep !in t
  }

  /** The tokens of `s`; `cur` is the run read so far. */
  function TokensFrom(s: string, sep: char, cur: string): (r: seq<string>)
    requires sep !in cur
    ensures forall i | 0 <= i < |r| :: IsToken(r[i], sep)
    decreases |s|
  {
    if s == [] then (if cur == [] then [] else [cur])
    else if s[0] == sep then (if cur == [] then [] else [cur]) + TokensFrom(s[1..], sep, [])
    else TokensFrom(s[1..], sep, cur + [s[0]])
  }

  function Tokens(s: string, sep: char): seq<string>
  {
    TokensFrom(s, sep, [])
  }

  /** The tokens joined by single delimiters. */
  function Join(ts: seq<string>, sep: char): string
  {
    if ts == [] then [] else if |ts| == 1 then ts[0] else ts[0] + [sep] + Join(ts[1..], sep)
  }

  lemma {:induction false} TokensFromAppend(t: string, rest: string, sep: char, cur: string)
    requires sep !in t && sep !in cur
    ensures TokensFrom(t + rest, sep, cur) == TokensFrom(rest, sep, cur + t)
    decreases |t|
  {
    if t != [] {
      assert (t + rest)[0] == t[0] && (t + rest)[1..] == t[1..] + rest;
      TokensFromAppend(t[1..], rest, sep, cur + [t[0]]);
      assert cur + [t[0]] + t[1..] == cur + t;
    } else {
      assert t + rest == rest && cur + t == cur;
    }
  }

  /** Splitting what was joined from tokens gives the tokens back. */
  lemma {:induction false} TokensOfJoin(ts: seq<string>, sep: char)
    requires forall i | 0 <= i < |ts| :: IsToken(ts[i], sep)
    ensures Tokens(Join(ts, sep), sep) == ts
  {
    if ts == [] {
    } else if |ts| == 1 {
      TokensFromAppend(ts[0], [], sep, []);
      assert ts[0] + [] == ts[0] && [] + ts[0] == ts[0];
    } else {
      var rest := Join(ts[1..], sep);
      TokensOfJoin(ts[1..], sep);
      TokensFromAppend(ts[0], [sep] + rest, sep, []);
      assert ts[0] + [sep] + rest == ts[0] + ([sep] + rest);
      assert ([sep] + rest)[1..] == rest;
      assert [] + ts[0] == ts[0];
    }
  }
}
