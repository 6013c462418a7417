/** `HighlightedText`: its initializer splits the text into the words
    between spaces, colours the words that appear in the `highlighted` list,
    and concatenates the pieces with a single space between consecutive words.
    Colours are abstracted to a flag per piece. */
module HighlightedText {
  import opened Collections

  /** A styled piece of `Text`: its characters and whether the highlight
      colour is applied to it. */
  datatype Run = Run(text: string, highlighted: bool)

  /** The length of the run of non-space characters that starts `s`. */
  function WordLength(s: string): (n: nat)
    ensures n <= |s|
    ensures forall k :: 0 <= k < n ==> s[k] != ' '
    ensures n < |s| ==> s[n] == ' '
  {
    if s == [] || s[0] == ' ' then 0 else 1 + WordLength(s[1..])
  }

  /** `text.split(separator: " ")` with Swift's default of omitting empty
      pieces: the maximal non-empty runs of non-space characters, in order. */
  function Split(s: string): (r: seq<string>)
    ensures forall i :: 0 <= i < |r| ==> IsWord(r[i])
    decreases |s|
  {
    if s == [] then []
    else if s[0] == ' ' then Split(s[1..])
    else
      var n := WordLength(s);
      [s[..n]] + Split(s[n..])
  }

  /** A word as `Split` produces them: non-empty, with no space in it. */
  predicate IsWord(w: string) {
    w != [] && forall k :: 0 <= k < |w| ==> w[k] != ' '
  }

  /** The words joined by exactly one space. */
  function Join(ws: seq<string>): string {
    if ws == [] then []
    else if |ws| == 1 then ws[0]
    else ws[0] + " " + Join(ws[1..])
  }

  /** The word run is not affected by what follows a space. */
  lemma {:induction false} WordLengthSpace(a: string, b: string)
    ensures WordLength(a + " " + b) == WordLength(a)
  {
    if a != [] && a[0] != ' ' {
      assert (a + " " + b)[1..] == a[1..] + " " + b;
      WordLengthSpace(a[1..], b);
    }
  }

  /** Splitting at a space splits either side separately: the one equation
      that, with `Split("") == []` and `Split(w) == [w]` for a word `w`,
      determines `Split`. */
  lemma {:induction false} SplitAtSpace(a: string, b: string)
    ensures Split(a + " " + b) == Split(a) + Split(b)
    decreases |a|
  {
    var s := a + " " + b;
    if a == [] {
      assert s == " " + b && s[1..] == b;
    } else if a[0] == ' ' {
      assert s[1..] == a[1..] + " " + b;
      SplitAtSpace(a[1..], b);
    } else {
      var n := WordLength(a);
      WordLengthSpace(a, b);
      assert s[..n] == a[..n];
      if n == |a| {
        assert s[n..] == " " + b;
        assert Split(s[n..]) == Split(b) by { assert (" " + b)[1..] == b; }
        assert a[n..] == [];
      } else {
        assert s[n..] == a[n..] + " " + b;
        SplitAtSpace(a[n..], b);
      }
    }
  }

  /** A single word splits to itself. */
  lemma SplitWord(w: string)
    requires IsWord(w)
    ensures Split(w) == [w]
  {
    assert WordLength(w) == |w|;
    assert w[..|w|] == w && w[|w|..] == [];
    assert Split(w) == [w[..|w|]] + Split(w[|w|..]);
  }

  /** Round trip: splitting words joined by single spaces gives the words back. */
  lemma {:induction false} SplitJoin(ws: seq<string>)
    requires forall i :: 0 <= i < |ws| ==> IsWord(ws[i])
    ensures Split(Join(ws)) == ws
  {
    if ws == [] {
    } else if |ws| == 1 {
      SplitWord(ws[0]);
    } else {
      SplitJoin(ws[1..]);
      SplitAtSpace(ws[0], Join(ws[1..]));
      SplitWord(ws[0]);
    }
  }

  /** Normalisation: joining the words of any text and splitting again
      gives the same words, so empty pieces between spaces play no part. */
  lemma JoinSplitStable(s: string)
    ensures Split(Join(Split(s))) == Split(s)
  {
    SplitJoin(Split(s));
  }

  /** A text has no words exactly when it is made only of spaces, the empty
      text included. */
  lemma {:induction false} SplitAllSpaces(s: string)
    ensures Split(s) == [] <==> forall k :: 0 <= k < |s| ==> s[k] == ' '
  {
    if s != [] && s[0] == ' ' {
      SplitAllSpaces(s[1..]);
      assert forall k :: 0 <= k < |s[1..]| ==> s[1..][k] == s[k + 1];
    }
  }

  /** The characters of a sequence of runs, colours ignored. */
  function Plain(runs: seq<Run>): string {
    if runs == [] then [] else Plain(runs[..|runs| - 1]) + runs[|runs| - 1].text
  }

  /** The runs `finalText` is built from: the word runs at even positions,
      `Text(" ")` between them. */
  predicate Interleaved(runs: seq<Run>, words: seq<string>, highlighted: seq<string>) {
    && |runs| == 2 * |words| - 1
    && (forall k :: 0 <= k < |words| ==> runs[2 * k] == Run(words[k], words[k] in highlighted))
    && (forall k :: 0 <= k < |words| - 1 ==> runs[2 * k + 1] == Run(" ", false))
  }

  /** Only membership in `highlighted` matters: two lists with the same
      elements, in any order and with any repetitions, describe the same runs. */
  lemma HighlightByMembership(runs: seq<Run>, words: seq<string>, h1: seq<string>, h2: seq<string>)
    requires forall w :: w in h1 <==> w in h2
    ensures Interleaved(runs, words, h1) <==> Interleaved(runs, words, h2)
  {
  }

  /** `init(text:highlighted:color:)`: the loop that accumulates `finalText`,
      which stays `nil` when the text has no words. */
  method BuildFinalText(text: string, highlighted: seq<string>) returns (finalText: Option<seq<Run>>)
    ensures finalText.None? <==> Split(text) == []
    ensures finalText.Some? ==> Interleaved(finalText.value, Split(text), highlighted)
    ensures finalText.Some? ==> Plain(finalText.value) == Join(Split(text))
  {
    var words := Split(text);
    finalText := None;
    for i := 0 to |words|
      invariant finalText.None? <==> i == 0
      invariant finalText.Some? ==> Interleaved(finalText.value, words[..i], highlighted)
      invariant finalText.Some? ==> Plain(finalText.value) == Join(words[..i])
    {
      var strWord := words[i];
      var textWord := Run(strWord, false);
      if strWord in highlighted {
        textWord := Run(strWord, true);
      }
      if finalText.None? {
        finalText := Some([textWord]);
        assert words[..1] == [strWord];
      } else {
        var before := finalText.value;
        var after := before + [Run(" ", false)] + [textWord];
        JoinSnoc(words[..i], strWord);
        assert words[..i + 1] == words[..i] + [strWord];
        assert after[..|after| - 1] == before + [Run(" ", false)];
        assert (before + [Run(" ", false)])[..|before|] == before;
        finalText := Some(after);
      }
    }
    assert words[..|words|] == words;
  }

  /** Joining one more word appends a space and that word. */
  lemma {:induction false} JoinSnoc(ws: seq<string>, w: string)
    requires ws != []
    ensures Join(ws + [w]) == Join(ws) + " " + w
  {
    if |ws| == 1 {
      assert (ws + [w])[1..] == [w];
    } else {
      assert (ws + [w])[1..] == ws[1..] + [w];
      JoinSnoc(ws[1..], w);
    }
  }
}
