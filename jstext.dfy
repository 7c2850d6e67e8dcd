/**
 * The two JavaScript string operations the site uses to turn an anchor
 * (`'#about'`) into a section id or a label: `String.prototype.replace` with a
 * one-character pattern, which replaces only the FIRST occurrence, and
 * `charAt(0).toUpperCase() + slice(1)`.
 */
module JsText {

  /** `s.indexOf(c)`, with `|s|` standing for JavaScript's -1. */
  function IndexOf(s: string, c: char): (k: nat)
    ensures k <= |s|
    ensures k < |s| ==> s[k] == c
    ensures c !in s[..k]
    ensures k == |s| <==> c !in s
  {
    if s == [] then 0
    else if s[0] == c then 0
    else
      var k' := IndexOf(s[1..], c);
      assert s[1..][..k'] == s[1..k' + 1];
      1 + k'
  }

  /** `s.replace(c, '')`: drops the first occurrence of `c`, if any. */
  function RemoveFirst(s: string, c: char): string
  {
    if s == [] then []
    else if s[0] == c then s[1..]
    else [s[0]] + RemoveFirst(s[1..], c)
  }

  /** RemoveFirst splices out exactly the character at `IndexOf(s, c)`. */
  lemma {:induction false} RemoveFirstSplices(s: string, c: char)
    ensures var k := IndexOf(s, c);
            RemoveFirst(s, c) == if k < |s| then s[..k] + s[k + 1..] else s
  {
    if s != [] && s[0] != c {
      RemoveFirstSplices(s[1..], c);
      var k' := IndexOf(s[1..], c);
      if k' < |s| - 1 {
        assert s[..k' + 1] == [s[0]] + s[1..][..k'];
        assert s[k' + 2..] == s[1..][k' + 1..];
      } else {
        assert s == [s[0]] + s[1..];
      }
    }
  }

  /** Removing the first `c` shortens the string by one exactly when `c` occurs. */
  lemma RemoveFirstLength(s: string, c: char)
    ensures |RemoveFirst(s, c)| == if c in s then |s| - 1 else |s|
  {
    RemoveFirstSplices(s, c);
  }

  /** Anything after the first `c` is kept, later occurrences of `c` included. */
  lemma RemoveFirstOfPrefixed(c: char, w: string)
    ensures RemoveFirst([c] + w, c) == w
  {
    assert ([c] + w)[1..] == w;
  }

  /** `ch.toUpperCase()` for the characters the site's anchors use (ASCII letters). */
  function ToUpper(ch: char): (u: char)
    ensures 'a' <= ch <= 'z' ==> 'A' <= u <= 'Z' && u as int - ch as int == 'A' as int - 'a' as int
    ensures !('a' <= ch <= 'z') ==> u == ch
  {
    if 'a' <= ch <= 'z' then (ch as int - 'a' as int + 'A' as int) as char else ch
  }

  /** `s.charAt(0).toUpperCase() + s.slice(1)`; `charAt(0)` of `''` is `''`. */
  function UpperFirst(s: string): (r: string)
    ensures |r| == |s|
    ensures s != [] ==> r[0] == ToUpper(s[0]) && r[1..] == s[1..]
  {
    if s == [] then [] else [ToUpper(s[0])] + s[1..]
  }
}
