/** The near-duplicate signatures of a phrase: its words, and its words less one, joined and digested. */
module PhraseSignatures {

  const SEPARATOR: char := 0x1f as char
  const NEAR_DUPLICATE_MIN_WORDS := 4
  const NEAR_DUPLICATE_MAX_WORDS := 40

  predicate IsWord(w: string) { w != "" && SEPARATOR !in w }

  predicate Words(words: seq<string>) { forall w :: w in words ==> IsWord(w) }

  /** The separator's `join`. */
  function Join(words: seq<string>): string {
    if words == [] then ""
    else if |words| == 1 then words[0]
    else words[0] + [SEPARATOR] + Join(words[1..])
  }

  function Parse(text: string, current: string): seq<string> {
    if text == "" then if current == "" then [] else [current]
    else if text[0] == SEPARATOR then [current] + Parse(text[1..], "")
    else Parse(text[1..], current + [text[0]])
  }

  lemma {:induction false} ParseWord(w: string, rest: string, current: string)
    requires SEPARATOR !in w
    ensures Parse(w + rest, current) == Parse(rest, current + w)
    decreases |w|
  {
    if w == "" {
      assert w + rest == rest && current + w == current;
    } else {
      assert (w + rest)[1..] == w[1..] + rest;
      ParseWord(w[1..], rest, current + [w[0]]);
      assert current + [w[0]] + w[1..] == current + w;
    }
  }

  lemma {:induction false} ParseJoins(words: seq<string>)
    requires Words(words)
    ensures Parse(Join(words), "") == words
    decreases |words|
  {
    assert words != [] ==> words[0] in words;
    if |words| == 1 {
      assert words[0] + "" == words[0] && "" + words[0] == words[0];
      ParseWord(words[0], "", "");
    } else if |words| > 1 {
      var rest := [SEPARATOR] + Join(words[1..]);
      assert Join(words) == words[0] + rest;
      ParseWord(words[0], rest, "");
      assert "" + words[0] == words[0] && rest[1..] == Join(words[1..]);
      ParseJoins(words[1..]);
    }
  }

  /** Words tell their join, so nothing is lost before the digest. */
  lemma {:induction false} JoinIsInjective(a: seq<string>, b: seq<string>)
    requires Words(a) && Words(b) && Join(a) == Join(b)
    ensures a == b
  {
    ParseJoins(a);
    ParseJoins(b);
  }

  function LessOne(words: seq<string>, offset: nat): seq<string>
    requires offset < |words|
  {
    words[..offset] + words[offset + 1..]
  }

  /** The words and, of a phrase of moderate length, the words less each one in turn. */
  function Variants(words: seq<string>): (r: seq<seq<string>>)
    ensures Words(words) ==> forall v :: v in r ==> Words(v)
  {
    [words]
    + if NEAR_DUPLICATE_MIN_WORDS <= |words| <= NEAR_DUPLICATE_MAX_WORDS
      then seq(|words|, k requires 0 <= k < |words| => LessOne(words, k)) else []
  }
}
