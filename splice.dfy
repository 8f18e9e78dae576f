/**
  Splicing the tags into the template text: the head tags go immediately before
  the first `</head>` and the body tags immediately before the first `</body>`,
  both found without regard to letter case. The template is never parsed; a
  missing closing tag means that category is not inserted.
*/
module Splice {
  import opened Wrappers

  /** ASCII lower-casing, which is all the case-insensitive match of the two closing tags depends on. */
  function LowerAscii(c: char): char {
    if 'A' <= c <= 'Z' then (c as int + 32) as char else c
  }

  /** `pat` occurs in `text` at `i`, ignoring letter case. */
  predicate MatchAt(text: string, pat: string, i: int) {
    0 <= i && i + |pat| <= |text| && forall k :: 0 <= k < |pat| ==> LowerAscii(text[i + k]) == LowerAscii(pat[k])
  }

  /** The first position at or after `from` where `pat` occurs, ignoring letter case. */
  function FindFirst(text: string, pat: string, from: nat): (r: Option<nat>)
    requires from <= |text|
    ensures r.Some? ==> from <= r.value && MatchAt(text, pat, r.value)
    ensures r.Some? ==> forall i :: from <= i < r.value ==> !MatchAt(text, pat, i)
    ensures r.None? ==> forall i :: from <= i ==> !MatchAt(text, pat, i)
    decreases |text| - from
  {
    if from + |pat| > |text| then None
    else if MatchAt(text, pat, from) then Some(from)
    else FindFirst(text, pat, from + 1)
  }

  /** `i` is the first position where `pat` occurs in `text`, ignoring letter case. */
  ghost predicate FirstMatch(text: string, pat: string, i: int) {
    MatchAt(text, pat, i) && forall j :: 0 <= j < i ==> !MatchAt(text, pat, j)
  }

  /**
    `text.replace(/(closing)/i, match => insert + match)`: `insert` placed
    immediately before the first occurrence of `closing`; `text` unchanged when
    there is none.
  */
  function InsertBeforeFirst(text: string, closing: string, insert: string): (r: string)
    ensures (forall i :: !MatchAt(text, closing, i)) ==> r == text
    ensures forall i :: FirstMatch(text, closing, i) ==> r == text[..i] + insert + text[i..]
  {
    match FindFirst(text, closing, 0)
    case None => text
    case Some(i) => text[..i] + insert + text[i..]
  }

  /**
    When `closing` occurs, the result holds `insert` right before an occurrence of
    `closing`, and deleting that inserted text gives back `text`.
  */
  lemma DeleteInserted(text: string, closing: string, insert: string, i: int)
    requires FirstMatch(text, closing, i)
    ensures var r := InsertBeforeFirst(text, closing, insert);
      && |r| == |text| + |insert|
      && r[i..i + |insert|] == insert
      && r[..i] + r[i + |insert|..] == text
      && MatchAt(r, closing, i + |insert|)
  {
    var r := InsertBeforeFirst(text, closing, insert);
    assert r == text[..i] + insert + text[i..];
    assert r[..i] == text[..i];
    assert r[i + |insert|..] == text[i..];
    forall k | 0 <= k < |closing|
      ensures LowerAscii(r[i + |insert| + k]) == LowerAscii(closing[k])
    {
      assert r[i + |insert| + k] == text[i + k];
    }
  }

  /** `parts.join('')`. */
  function Concat(parts: seq<string>): string {
    if parts == [] then "" else parts[0] + Concat(parts[1..])
  }

  /** The template with the head tags before its first `</head>` and then the body tags before the first `</body>`. */
  function Render(template: string, headTags: seq<string>, bodyTags: seq<string>): string {
    InsertBeforeFirst(InsertBeforeFirst(template, "</head>", Concat(headTags)), "</body>", Concat(bodyTags))
  }

  /** An empty insertion leaves the text as it was, whether or not `closing` occurs. */
  lemma InsertNothing(text: string, closing: string)
    ensures InsertBeforeFirst(text, closing, "") == text
  {
    match FindFirst(text, closing, 0)
    case None =>
    case Some(i) =>
      assert text[..i] + "" + text[i..] == text;
  }

  /** One differing character rules out a match at `j`. */
  lemma MismatchAt(text: string, pat: string, j: nat, k: nat)
    requires k < |pat| && j + k < |text| && LowerAscii(text[j + k]) != LowerAscii(pat[k])
    ensures !MatchAt(text, pat, j)
  {
  }

  /** `</body>` does not start anywhere inside the opening `<body>` of `<body></body>`. */
  lemma ExampleNoEarlierBody()
    ensures forall j :: 0 <= j < 6 ==> !MatchAt("<body></body>", "</body>", j)
  {
    var text, pat := "<body></body>", "</body>";
    forall j | 0 <= j < 6
      ensures !MatchAt(text, pat, j)
    {
      if j == 0 {
        MismatchAt(text, pat, 0, 1);
      } else {
        assert text[j] != '<';
        MismatchAt(text, pat, j, 0);
      }
    }
  }

  /** In the minimal template `<body></body>`, the first `</body>` starts at 6. */
  lemma ExampleBodyMatch()
    ensures FirstMatch("<body></body>", "</body>", 6)
  {
    ExampleNoEarlierBody();
    assert MatchAt("<body></body>", "</body>", 6);
  }

  /** A template with no `</head>` and one body tag: the tag lands immediately before `</body>`. */
  lemma RenderExample(tag: string)
    ensures Render("<body></body>", [], [tag]) == "<body>" + tag + "</body>"
  {
    var text := "<body></body>";
    assert Concat([]) == "";
    assert Concat([tag]) == tag;
    InsertNothing(text, "</head>");
    ExampleBodyMatch();
    assert text[..6] == "<body>" && text[6..] == "</body>";
  }
}
