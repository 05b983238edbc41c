/**
 * The parts of JavaScript's string and array library that the profile page's
 * initials expression uses: `String.prototype.split` with a one-character
 * separator, `Array.prototype.join`, and indexing a string with `s[0]`.
 */
module JsStrings {
  import opened Wrappers

  /** The number of occurrences of `c` in `s`. */
  function Count(s: string, c: char): nat {
    if s == [] then 0 else (if s[0] == c then 1 else 0) + Count(s[1..], c)
  }

  /**
   * `s.split(sep)` for a one-character separator: the maximal runs between
   * separators, empty runs included, so `"".split(' ')` is `[""]` and
   * `"a  b".split(' ')` is `["a", "", "b"]`.
   */
  function Split(s: string, sep: char): (pieces: seq<string>)
    ensures |pieces| == Count(s, sep) + 1
    ensures forall p | p in pieces :: sep !in p
  {
    if s == [] then [""]
    else
      var rest := Split(s[1..], sep);
      if s[0] == sep then [""] + rest
      else [[s[0]] + rest[0]] + rest[1..]
  }

  /** `pieces.join(sep)` on an array of strings. */
  function Join(pieces: seq<string>, sep: string): string {
    if pieces == [] then ""
    else if |pieces| == 1 then pieces[0]
    else pieces[0] + sep + Join(pieces[1..], sep)
  }

  /** `s[0]`: the first character, or `undefined` on the empty string. */
  function Head(s: string): (c: Option<char>)
    ensures c.Some? <==> s != []
    ensures c.Some? ==> c.value == s[0]
  {
    if s == [] then None else Some(s[0])
  }

  /** `pieces.map(n => n[0])`. */
  function Heads(pieces: seq<string>): (hs: seq<Option<char>>)
    ensures |hs| == |pieces|
    ensures forall i | 0 <= i < |pieces| :: hs[i] == Head(pieces[i])
  {
    if pieces == [] then [] else [Head(pieces[0])] + Heads(pieces[1..])
  }

  /**
   * `xs.join('')` on an array of one-character strings and `undefined`s:
   * `join` renders `undefined` as the empty string.
   */
  function JoinChars(xs: seq<Option<char>>): string {
    if xs == [] then ""
    else (if xs[0].Some? then [xs[0].value] else "") + JoinChars(xs[1..])
  }

  /** Joining what `split` returns with the same separator gives back the string. */
  lemma {:induction false} JoinSplit(s: string, sep: char)
    ensures Join(Split(s, sep), [sep]) == s
  {
    if s != [] {
      var rest := Split(s[1..], sep);
      JoinSplit(s[1..], sep);
      if s[0] == sep {
        assert Split(s, sep) == [""] + rest;
        assert ([""] + rest)[1..] == rest;
      } else {
        var pieces := Split(s, sep);
        assert pieces[0] == [s[0]] + rest[0] && pieces[1..] == rest[1..];
        if |rest| == 1 {
          assert rest == [rest[0]];
        } else {
          assert rest[1..][0] == rest[1];
          assert Join(rest, [sep]) == rest[0] + [sep] + Join(rest[1..], [sep]);
        }
        assert s == [s[0]] + s[1..];
      }
    }
  }

  /** Splitting a join of separator-free pieces gives back the pieces. */
  lemma {:induction false} SplitJoin(pieces: seq<string>, sep: char)
    requires pieces != []
    requires forall p | p in pieces :: sep !in p
    ensures Split(Join(pieces, [sep]), sep) == pieces
    decreases |pieces|, |pieces[0]|
  {
    var p := pieces[0];
    if p != [] {
      // peel off the first character of the first piece
      var shorter := [p[1..]] + pieces[1..];
      assert shorter[1..] == pieces[1..];
      assert forall q | q in shorter :: sep !in q by {
        assert forall q | q in shorter :: q == p[1..] || q in pieces;
        assert p in pieces && sep !in p;
        assert forall i | 0 <= i < |p[1..]| :: p[1..][i] == p[i + 1];
      }
      SplitJoin(shorter, sep);
      var joined := Join(pieces, [sep]);
      if |pieces| == 1 {
        assert joined == p && Join(shorter, [sep]) == p[1..];
      } else {
        assert joined == p + [sep] + Join(pieces[1..], [sep]);
        assert Join(shorter, [sep]) == p[1..] + [sep] + Join(pieces[1..], [sep]);
      }
      assert joined == [p[0]] + Join(shorter, [sep]);
      assert joined[0] == p[0] && joined[1..] == Join(shorter, [sep]);
      assert p[0] != sep by { assert p[0] in p; }
      assert [p[0]] + p[1..] == p;
    } else if |pieces| > 1 {
      var tail := pieces[1..];
      assert forall q | q in tail :: sep !in q by {
        assert forall q | q in tail :: q in pieces;
      }
      SplitJoin(tail, sep);
      var joined := Join(pieces, [sep]);
      assert joined == [sep] + Join(tail, [sep]);
      assert joined[0] == sep && joined[1..] == Join(tail, [sep]);
      assert [""] + tail == pieces;
    }
  }
}
