/**
 * The avatar initials every navigation component shows:
 * `nome.split(' ').map(n => n[0]).join('').slice(0, 2)`.
 *
 * `split(' ')` keeps empty pieces (around doubled, leading or trailing spaces); `n[0]` of an empty
 * piece is `undefined`, which `join('')` writes as nothing.  So the initials are the first two
 * characters that start a word, a word being a maximal run of characters other than a space.
 */
module Initials {

  const Space: char := ' '

  /** `s.split(sep)` for a one-character separator: the pieces between separators, empty ones included. */
  function Split(s: string, sep: char): (pieces: seq<string>)
    ensures |pieces| >= 1
    ensures forall i :: 0 <= i < |pieces| ==> sep !in pieces[i]
  {
    if s == [] then [""]
    else if s[0] == sep then [""] + Split(s[1..], sep)
    else
      var rest := Split(s[1..], sep);
      [[s[0]] + rest[0]] + rest[1..]
  }

  /** `pieces.join(sep)`. */
  function Join(pieces: seq<string>, sep: char): string
    requires |pieces| >= 1
  {
    if |pieces| == 1 then pieces[0] else pieces[0] + [sep] + Join(pieces[1..], sep)
  }

  /** Splitting loses nothing: joining the pieces again gives the original text. */
  lemma {:induction false} JoinSplit(s: string, sep: char)
    ensures Join(Split(s, sep), sep) == s
  {
    if s != [] {
      JoinSplit(s[1..], sep);
      var rest := Split(s[1..], sep);
      if s[0] == sep {
        assert ([""] + rest)[1..] == rest;
      } else {
        var pieces := [[s[0]] + rest[0]] + rest[1..];
        if |rest| > 1 {
          assert pieces[1..] == rest[1..];
          assert Join(rest, sep) == rest[0] + [sep] + Join(rest[1..], sep);
        }
      }
    }
  }

  /** `pieces.map(n => n[0]).join('')`: the first character of every non-empty piece. */
  function FirstChars(pieces: seq<string>): (r: string)
    ensures |r| <= |pieces|
  {
    if pieces == [] then ""
    else (if pieces[0] != "" then [pieces[0][0]] else "") + FirstChars(pieces[1..])
  }

  /** `s.slice(0, n)`. */
  function Take(s: string, n: nat): (r: string)
    ensures |r| == if |s| < n then |s| else n
    ensures r == s[..|r|]
  {
    if |s| < n then s else s[..n]
  }

  /**
   * The characters of `s` that start a word, in order; `afterSpace` says whether the position
   * before `s` counts as a word boundary.
   */
  function StartsFrom(s: string, afterSpace: bool): (r: string)
    ensures |r| <= |s|
    ensures Space !in r
  {
    if s == [] then ""
    else (if afterSpace && s[0] != Space then [s[0]] else "") + StartsFrom(s[1..], s[0] == Space)
  }

  /** The first character of every word of `s`. */
  function WordStarts(s: string): string
  {
    StartsFrom(s, true)
  }

  /**
   * The pieces of `split(' ')` start exactly at the word starts: all pieces together give every
   * word start, and the pieces after the first give every word start except one at position 0.
   */
  lemma {:induction false} FirstCharsOfSplit(s: string)
    ensures FirstChars(Split(s, Space)) == StartsFrom(s, true)
    ensures FirstChars(Split(s, Space)[1..]) == StartsFrom(s, false)
  {
    if s != [] {
      FirstCharsOfSplit(s[1..]);
      var rest := Split(s[1..], Space);
      if s[0] == Space {
        assert ([""] + rest)[1..] == rest;
      } else {
        var pieces := [[s[0]] + rest[0]] + rest[1..];
        assert pieces[1..] == rest[1..];
      }
    }
  }

  /** The initials of `nome`: its first two word starts, or fewer when it has fewer words. */
  function Initials(nome: string): (r: string)
    ensures |r| <= 2
    ensures r == Take(WordStarts(nome), 2)
    ensures Space !in r
  {
    FirstCharsOfSplit(nome);
    Take(FirstChars(Split(nome, Space)), 2)
  }

  /** Every word start is a character of the text at a position where a word starts. */
  lemma {:induction false} WordStartPosition(s: string, afterSpace: bool, k: nat) returns (i: nat)
    requires k < |StartsFrom(s, afterSpace)|
    ensures i < |s| && s[i] == StartsFrom(s, afterSpace)[k] && s[i] != Space
    ensures i == 0 ==> afterSpace
    ensures i > 0 ==> s[i - 1] == Space
  {
    var head := if afterSpace && s[0] != Space then [s[0]] else "";
    assert StartsFrom(s, afterSpace) == head + StartsFrom(s[1..], s[0] == Space);
    if k < |head| {
      i := 0;
    } else {
      var j := WordStartPosition(s[1..], s[0] == Space, k - |head|);
      i := j + 1;
    }
  }
}
