/**
 The recognised-word transcript of the recognizer screen (`recognizedText`):
 the append-unless-repeated update applied to every recognised word, the
 undo that drops the last entry, and the space-separated rendering.
 */
module Transcript {
  import opened Wrappers

  /** A recognised word: the response body of the recognition service. */
  type Word = string

  /** No two neighbouring entries are equal. */
  predicate NoAdjacentDuplicates(t: seq<Word>)
  {
    forall i :: 0 <= i && i + 1 < |t| ==> t[i] != t[i + 1]
  }

  /** `t[t.length - 1]` in JavaScript: `undefined` on an empty array. */
  function LastEntry(t: seq<Word>): (r: Option<Word>)
    ensures r.None? <==> |t| == 0
    ensures r.Some? ==> r.value == t[|t| - 1]
  {
    if |t| == 0 then None else Some(t[|t| - 1])
  }

  /**
   The transcript updater run when a request succeeds: the word is appended
   unless it equals the current last entry (an empty transcript has no last
   entry, so its first word is always appended).
   */
  function AppendWord(t: seq<Word>, w: Word): (r: seq<Word>)
    ensures |t| <= |r| <= |t| + 1
    ensures r[..|t|] == t
    ensures LastEntry(r) == Some(w)
    ensures r == t <==> LastEntry(t) == Some(w)
  {
    if LastEntry(t) != Some(w) then t + [w] else t
  }

  /** The two possible results of AppendWord, stated as a case split on the input. */
  lemma AppendWordCases(t: seq<Word>, w: Word)
    ensures |t| == 0 || t[|t| - 1] != w ==> AppendWord(t, w) == t + [w]
    ensures |t| > 0 && t[|t| - 1] == w ==> AppendWord(t, w) == t
  {
    var r := AppendWord(t, w);
    if |r| == |t| + 1 {
      assert r == r[..|t|] + [r[|t|]];
    }
  }

  lemma AppendWordKeepsNoAdjacentDuplicates(t: seq<Word>, w: Word)
    requires NoAdjacentDuplicates(t)
    ensures NoAdjacentDuplicates(AppendWord(t, w))
  {
  }

  /** Receiving the same word twice in a row has the effect of receiving it once. */
  lemma AppendWordIdempotent(t: seq<Word>, w: Word)
    ensures AppendWord(AppendWord(t, w), w) == AppendWord(t, w)
  {
  }

  /**
   The check is against the last entry only: a word already present earlier
   in the transcript is appended again when a different word sits in between.
   */
  lemma AppendWordComparesLastEntryOnly(t: seq<Word>, w: Word, i: nat)
    requires i < |t| && t[i] == w && t[|t| - 1] != w
    ensures AppendWord(t, w) == t + [w]
  {
  }

  /** The worked examples: ["HELLO"] stays on "HELLO" and grows on "WORLD". */
  lemma AppendWordExamples()
    ensures AppendWord(["HELLO"], "HELLO") == ["HELLO"]
    ensures AppendWord(["HELLO"], "WORLD") == ["HELLO", "WORLD"]
    ensures AppendWord(["A", "B"], "A") == ["A", "B", "A"]
  {
  }

  /** Every word of a stream of recognised words fed through AppendWord, in order. */
  function Feed(t: seq<Word>, ws: seq<Word>): (r: seq<Word>)
    ensures |t| <= |r|
    ensures |ws| > 0 ==> LastEntry(r) == Some(ws[|ws| - 1])
    decreases |ws|
  {
    if |ws| == 0 then t else Feed(AppendWord(t, ws[0]), ws[1..])
  }

  /** Whatever the service returns, the transcript never holds two equal neighbours. */
  lemma {:induction false} FeedKeepsNoAdjacentDuplicates(t: seq<Word>, ws: seq<Word>)
    requires NoAdjacentDuplicates(t)
    ensures NoAdjacentDuplicates(Feed(t, ws))
    decreases |ws|
  {
    if |ws| > 0 {
      AppendWordKeepsNoAdjacentDuplicates(t, ws[0]);
      FeedKeepsNoAdjacentDuplicates(AppendWord(t, ws[0]), ws[1..]);
    }
  }

  /** Feeding only extends: the old transcript stays a prefix, growing by at most one entry per word. */
  lemma {:induction false} FeedExtends(t: seq<Word>, ws: seq<Word>)
    ensures t <= Feed(t, ws)
    ensures |Feed(t, ws)| <= |t| + |ws|
    decreases |ws|
  {
    if |ws| > 0 {
      var t' := AppendWord(t, ws[0]);
      FeedExtends(t', ws[1..]);
      assert t <= t';
    }
  }

  /** A stream without repeats that does not restart with the last entry is kept in full. */
  lemma {:induction false} FeedKeepsDistinctStream(t: seq<Word>, ws: seq<Word>)
    requires NoAdjacentDuplicates(t + ws)
    ensures Feed(t, ws) == t + ws
    decreases |ws|
  {
    if |ws| > 0 {
      assert (t + ws)[|t|] == ws[0];
      if |t| > 0 {
        assert (t + ws)[|t| - 1] == t[|t| - 1];
      }
      AppendWordCases(t, ws[0]);
      assert AppendWord(t, ws[0]) + ws[1..] == t + ws;
      FeedKeepsDistinctStream(AppendWord(t, ws[0]), ws[1..]);
    }
  }

  /** A word repeated by the service on consecutive cycles is recorded once. */
  lemma RepeatedWordRecordedOnce(t: seq<Word>, w: Word)
    ensures Feed(t, [w, w]) == AppendWord(t, w)
  {
    assert [w, w][1..] == [w];
    assert [w][1..] == [];
    assert Feed(t, [w, w]) == Feed(AppendWord(t, w), [w]);
    assert Feed(AppendWord(t, w), [w]) == AppendWord(AppendWord(t, w), w);
    AppendWordIdempotent(t, w);
  }

  /**
   The position that ECMAScript's `Array.prototype.slice` derives from an
   integer argument: negative values count back from the end, and the
   result is clamped to `0..len`.
   */
  function RelativeIndex(k: int, len: nat): (r: nat)
    ensures r <= len
    ensures 0 <= k <= len ==> r == k
    ensures k < 0 && len + k >= 0 ==> r == len + k
    ensures k < 0 && len + k < 0 ==> r == 0
    ensures k > len ==> r == len
  {
    if k < 0 then (if len + k < 0 then 0 else len + k)
    else if k < len then k else len
  }

  /** `s.slice(start, end)` for integer arguments. */
  function JsSlice<T>(s: seq<T>, start: int, end: int): (r: seq<T>)
    ensures |r| <= |s|
    ensures RelativeIndex(start, |s|) < RelativeIndex(end, |s|) ==>
              r == s[RelativeIndex(start, |s|)..RelativeIndex(end, |s|)]
    ensures RelativeIndex(end, |s|) <= RelativeIndex(start, |s|) ==> r == []
  {
    var from, to := RelativeIndex(start, |s|), RelativeIndex(end, |s|);
    if from < to then s[from..to] else []
  }

  /** The backspace control: `recognizedText.slice(0, -1)`. */
  function Undo(t: seq<Word>): (r: seq<Word>)
    ensures r <= t
    ensures |r| == if |t| == 0 then 0 else |t| - 1
  {
    JsSlice(t, 0, -1)
  }

  /** Undo drops the last entry and is harmless on an empty transcript. */
  lemma UndoDropsLast(t: seq<Word>)
    ensures |t| == 0 ==> Undo(t) == []
    ensures |t| > 0 ==> Undo(t) == t[..|t| - 1]
    ensures |Undo(t)| == if |t| == 0 then 0 else |t| - 1
    ensures Undo(t) <= t
  {
  }

  /** Any prefix of a repeat-free transcript is repeat-free, so undo keeps the invariant. */
  lemma UndoKeepsNoAdjacentDuplicates(t: seq<Word>)
    requires NoAdjacentDuplicates(t)
    ensures NoAdjacentDuplicates(Undo(t))
  {
    UndoDropsLast(t);
  }

  /** Undo reverses an append that took effect. */
  lemma UndoAfterAppend(t: seq<Word>, w: Word)
    requires LastEntry(t) != Some(w)
    ensures Undo(AppendWord(t, w)) == t
  {
    UndoDropsLast(AppendWord(t, w));
  }

  /** `words.join(sep)`: the entries in order with `sep` between neighbours. */
  function Join(ws: seq<string>, sep: string): (r: string)
    ensures |ws| == 0 ==> r == ""
    ensures |ws| > 0 ==> ws[0] <= r
    decreases |ws|
  {
    if |ws| == 0 then ""
    else if |ws| == 1 then ws[0]
    else ws[0] + sep + Join(ws[1..], sep)
  }

  /** Joining after an append adds the separator and the new entry at the end. */
  lemma {:induction false} JoinSnoc(ws: seq<string>, sep: string, w: string)
    ensures Join(ws + [w], sep) == if |ws| == 0 then w else Join(ws, sep) + sep + w
    decreases |ws|
  {
    if |ws| == 0 {
      assert ws + [w] == [w];
    } else if |ws| == 1 {
      assert (ws + [w])[1..] == [w];
    } else {
      var v := ws + [w];
      assert v[0] == ws[0] && v[1..] == ws[1..] + [w];
      assert Join(v, sep) == ws[0] + sep + Join(ws[1..] + [w], sep);
      JoinSnoc(ws[1..], sep, w);
      assert Join(ws, sep) == ws[0] + sep + Join(ws[1..], sep);
    }
  }

  /** A join ends with the last entry. */
  lemma JoinEndsWithLast(ws: seq<string>, sep: string)
    requires |ws| > 0
    ensures |ws[|ws| - 1]| <= |Join(ws, sep)|
    ensures Join(ws, sep)[|Join(ws, sep)| - |ws[|ws| - 1]|..] == ws[|ws| - 1]
  {
    var init, last := ws[..|ws| - 1], ws[|ws| - 1];
    assert ws == init + [last];
    JoinSnoc(init, sep, last);
  }

  /** The length of a join: every entry plus one separator between each pair of neighbours. */
  lemma {:induction false} JoinLength(ws: seq<string>, sep: string)
    ensures |Join(ws, sep)| == TotalLength(ws) + (if |ws| == 0 then 0 else (|ws| - 1) * |sep|)
    decreases |ws|
  {
    if |ws| > 1 {
      JoinLength(ws[1..], sep);
    }
  }

  /** The summed length of the entries. */
  function TotalLength(ws: seq<string>): (n: nat)
    decreases |ws|
  {
    if |ws| == 0 then 0 else |ws[0]| + TotalLength(ws[1..])
  }
}
