// Splitting long text into overlapping chunks (src/wright/utils/text_splitter.py).
module Splitter {
  import opened Base

  // ---- Text

  predicate OccursAt(t: string, sep: string, i: nat) {
    i + |sep| <= |t| && t[i..i + |sep|] == sep
  }

  /** The first place where sep occurs in t, or |t| when it does not. */
  function IndexOf(t: string, sep: string): (i: nat)
    requires sep != ""
    ensures i == |t| || (i < |t| && OccursAt(t, sep, i))
    decreases t
  {
    if t == "" || OccursAt(t, sep, 0) then 0
    else
      var i := IndexOf(t[1..], sep);
      OccursLater(t, sep, i);
      1 + i
  }

  lemma OccursLater(t: string, sep: string, i: nat)
    requires t != ""
    ensures OccursAt(t[1..], sep, i) <==> OccursAt(t, sep, 1 + i)
  {
    if 1 + i + |sep| <= |t| {
      TailSlices(t, 1, i, i + |sep|);
    }
  }

  /** IndexOf finds the first occurrence. */
  lemma {:induction false} IndexIsFirst(t: string, sep: string, j: nat)
    requires sep != "" && j < IndexOf(t, sep)
    ensures !OccursAt(t, sep, j)
    decreases t
  {
    if j > 0 {
      OccursLater(t, sep, j - 1);
      hide OccursAt;
      IndexIsFirst(t[1..], sep, j - 1);
    }
  }

  lemma TailSlices(t: string, n: nat, a: nat, b: nat)
    requires n <= |t| && a <= b <= |t| - n
    ensures t[n..][a..b] == t[n + a..n + b] && t[n..][b..] == t[n + b..]
  {
  }

  /** What lies between the occurrences of sep, from left to right. */
  function SplitOn(t: string, sep: string): (parts: seq<string>)
    requires sep != ""
    ensures parts != []
    decreases |t|
  {
    var i := IndexOf(t, sep);
    if i == |t| then [t] else [t[..i]] + SplitOn(t[i + |sep|..], sep)
  }

  lemma SplitUnfolds(t: string, sep: string)
    requires sep != ""
    ensures var i := IndexOf(t, sep);
      SplitOn(t, sep) == if i == |t| then [t] else [t[..i]] + SplitOn(t[i + |sep|..], sep)
  {
    hide IndexOf;
  }

  lemma JoinPrepend(first: string, rest: seq<string>, sep: string)
    requires rest != []
    ensures Join([first] + rest, sep) == first + sep + Join(rest, sep)
  {
    assert ([first] + rest)[1..] == rest;
  }

  /** Splitting and joining again gives the text back. */
  lemma {:induction false} SplitThenJoin(t: string, sep: string)
    requires sep != ""
    ensures Join(SplitOn(t, sep), sep) == t
    decreases |t|
  {
    hide SplitOn, Join, IndexOf;
    SplitUnfolds(t, sep);
    var i := IndexOf(t, sep);
    if i == |t| {
      JoinOne(t, sep);
    } else {
      SplitThenJoin(t[i + |sep|..], sep);
      JoinPrepend(t[..i], SplitOn(t[i + |sep|..], sep), sep);
      CutInThree(t, sep, i);
    }
  }

  lemma JoinOne(item: string, sep: string)
    ensures Join([item], sep) == item
  {
  }

  lemma CutInThree(t: string, sep: string, i: nat)
    requires OccursAt(t, sep, i)
    ensures t[..i] + sep + t[i + |sep|..] == t
  {
  }

  function Sum(items: seq<string>): nat {
    if items == [] then 0 else |items[0]| + Sum(items[1..])
  }

  // ---- Where pieces come from

  datatype Span = Span(from: nat, to: nat)

  /** The pieces are non-empty slices of t, in order. */
  ghost predicate SpansOf(t: string, pieces: seq<string>, spans: seq<Span>) {
    && |spans| == |pieces|
    && (forall i :: 0 <= i < |spans| ==>
          spans[i].from < spans[i].to <= |t| && pieces[i] == t[spans[i].from..spans[i].to])
    && (forall i, j :: 0 <= i < j < |spans| ==> spans[i].from < spans[j].from && spans[i].to <= spans[j].to)
  }

  ghost predicate Inside(spans: seq<Span>, k: nat) {
    exists i :: 0 <= i < |spans| && spans[i].from <= k < spans[i].to
  }

  ghost predicate SeparatorChar(seps: seq<string>, c: char) {
    exists i :: 0 <= i < |seps| && c in seps[i]
  }

  /** Up to n, only separators have been left out. */
  ghost predicate CoveredTo(t: string, seps: seq<string>, spans: seq<Span>, n: nat)
    requires n <= |t|
  {
    forall k :: 0 <= k < n ==> SeparatorChar(seps, t[k]) || Inside(spans, k)
  }

  ghost predicate Bounded(pieces: seq<string>, size: int) {
    forall i :: 0 <= i < |pieces| ==> |pieces[i]| <= size
  }

  function Shift(spans: seq<Span>, n: nat): (r: seq<Span>)
    ensures |r| == |spans| && forall i :: 0 <= i < |r| ==> r[i] == Span(spans[i].from + n, spans[i].to + n)
  {
    seq(|spans|, i requires 0 <= i < |spans| => Span(spans[i].from + n, spans[i].to + n))
  }

  lemma SliceOfSlice(t: string, n: nat, m: nat, a: nat, b: nat)
    requires n <= m <= |t| && a <= b <= m - n
    ensures t[n..m][a..b] == t[n + a..n + b]
  {
    assert forall i :: 0 <= i < b - a ==> t[n..m][a..b][i] == t[n + a..n + b][i];
  }

  /** The pieces of a part that starts at n, behind the pieces of what comes before it. */
  lemma AddPart(t: string, pieces: seq<string>, spans: seq<Span>, n: nat, part: string, more: seq<string>,
                sub: seq<Span>)
    requires SpansOf(t, pieces, spans) && forall i :: 0 <= i < |spans| ==> spans[i].to <= n
    requires n + |part| <= |t| && part == t[n..n + |part|] && SpansOf(part, more, sub)
    ensures SpansOf(t, pieces + more, spans + Shift(sub, n))
    ensures forall i :: 0 <= i < |spans + Shift(sub, n)| ==> (spans + Shift(sub, n))[i].to <= n + |part|
  {
    var all := spans + Shift(sub, n);
    forall i | 0 <= i < |all|
      ensures all[i].from < all[i].to <= n + |part| && (pieces + more)[i] == t[all[i].from..all[i].to]
    {
      if i >= |spans| {
        var s := sub[i - |spans|];
        SliceOfSlice(t, n, n + |part|, s.from, s.to);
      }
    }
  }

  lemma AddCover(t: string, seps: seq<string>, rest: seq<string>, sep: string, spans: seq<Span>, n: nat,
                 part: string, sub: seq<Span>)
    requires seps == [sep] + rest && n + |part| <= |t| && part == t[n..n + |part|]
    requires CoveredTo(t, seps, spans, n) && CoveredTo(part, rest, sub, |part|)
    ensures CoveredTo(t, seps, spans + Shift(sub, n), n + |part|)
  {
    var all := spans + Shift(sub, n);
    forall k | 0 <= k < n + |part| ensures SeparatorChar(seps, t[k]) || Inside(all, k) {
      if k < n {
        if Inside(spans, k) {
          var i :| 0 <= i < |spans| && spans[i].from <= k < spans[i].to;
          assert all[i] == spans[i];
        }
      } else {
        assert part[k - n] == t[k];
        if Inside(sub, k - n) {
          var i :| 0 <= i < |sub| && sub[i].from <= k - n < sub[i].to;
          assert all[|spans| + i] == Span(sub[i].from + n, sub[i].to + n);
        } else {
          var i :| 0 <= i < |rest| && part[k - n] in rest[i];
          assert seps[i + 1] == rest[i];
        }
      }
    }
  }

  lemma AddSeparator(t: string, seps: seq<string>, spans: seq<Span>, n: nat, sep: string)
    requires sep in seps && n + |sep| <= |t| && t[n..n + |sep|] == sep && CoveredTo(t, seps, spans, n)
    ensures CoveredTo(t, seps, spans, n + |sep|)
  {
    forall k | n <= k < n + |sep| ensures SeparatorChar(seps, t[k]) {
      assert t[k] == t[n..n + |sep|][k - n];
      var i :| 0 <= i < |seps| && seps[i] == sep;
      assert t[k] in seps[i];
    }
  }

  // ---- Splitting

  /** The windows from position i on. */
  function WindowsFrom(t: string, size: int, overlap: int, i: nat): seq<string>
    requires size > 0 && overlap < size
    decreases |t| - i
  {
    if i >= |t| then [] else [t[i..Min(i + size, |t|)]] + WindowsFrom(t, size, overlap, i + (size - overlap))
  }

  function Min(a: int, b: int): int {
    if a <= b then a else b
  }

  /** What a text is broken into: itself if it is short, else windows, or what its parts are broken into. */
  function Pieces(t: string, seps: seq<string>, size: int, overlap: int): seq<string>
    requires size > 0 && overlap < size
    decreases |seps|, 0
  {
    if |t| <= size || seps == [] then if t == "" then [] else [t]
    else if seps[0] == "" then WindowsFrom(t, size, overlap, 0)
    else PiecesOfAll(SplitOn(t, seps[0]), seps[1..], size, overlap)
  }

  function PiecesOfAll(parts: seq<string>, seps: seq<string>, size: int, overlap: int): seq<string>
    requires size > 0 && overlap < size
    decreases |seps|, 1, |parts|
  {
    if parts == [] then [] else Pieces(parts[0], seps, size, overlap) + PiecesOfAll(parts[1..], seps, size, overlap)
  }

  /** k steps behind i. */
  function StepsFrom(i: nat, k: nat, step: nat): nat {
    i + k * step
  }

  /** The k-th window begins k steps into the text, a step being the size less the overlap; there are no others. */
  lemma {:induction false} WindowAt(t: string, size: int, overlap: int, i: nat, k: nat)
    requires size > 0 && overlap < size
    ensures
      var w, from := WindowsFrom(t, size, overlap, i), StepsFrom(i, k, size - overlap);
      && (k < |w| <==> from < |t|)
      && (k < |w| ==> w[k] == if from + size <= |t| then t[from..from + size] else t[from..])
    decreases k
  {
    var step := size - overlap;
    StepsOn(i, k, step);
    hide StepsFrom;
    if i >= |t| {
      LastWindow(t, size, overlap, i);
    } else {
      WindowsUnfold(t, size, overlap, i);
      if k > 0 {
        WindowAt(t, size, overlap, i + step, k - 1);
      }
    }
    hide WindowsFrom;
  }

  lemma StepsOn(i: nat, k: nat, step: nat)
    ensures StepsFrom(i, k, step) >= i && StepsFrom(i, 0, step) == i
    ensures k > 0 ==> StepsFrom(i, k, step) == StepsFrom(i + step, k - 1, step)
  {
  }

  /**
    What a text is broken into: one that fits is left as it is; a longer one is cut into windows if the next
    separator is empty, or else into its parts, each broken up on its own with the separators behind.
   */
  lemma PiecesAre(t: string, sep: string, rest: seq<string>, size: int, overlap: int)
    requires size > 0 && overlap < size
    ensures |t| <= size && t != "" ==> Pieces(t, [sep] + rest, size, overlap) == [t]
    ensures t != "" ==> Pieces(t, [], size, overlap) == [t]
    ensures Pieces("", [sep] + rest, size, overlap) == Pieces("", [], size, overlap) == []
    ensures |t| > size && sep == "" ==> Pieces(t, [sep] + rest, size, overlap) == WindowsFrom(t, size, overlap, 0)
    ensures |t| > size && sep != "" ==> Pieces(t, [sep] + rest, size, overlap) == PiecesOfAll(SplitOn(t, sep), rest, size, overlap)
  {
    hide WindowsFrom, SplitOn, PiecesOfAll;
    assert ([sep] + rest)[1..] == rest;
  }

  /** The pieces of parts are those of each, one after the other. */
  lemma {:induction false} PiecesInOrder(a: seq<string>, b: seq<string>, seps: seq<string>, size: int, overlap: int)
    requires size > 0 && overlap < size
    ensures PiecesOfAll(a + b, seps, size, overlap) == PiecesOfAll(a, seps, size, overlap) + PiecesOfAll(b, seps, size, overlap)
    ensures |a| == 1 ==> PiecesOfAll(a, seps, size, overlap) == Pieces(a[0], seps, size, overlap)
    decreases a
  {
    hide Pieces;
    if a == [] {
      assert a + b == b;
    } else {
      assert (a + b)[1..] == a[1..] + b;
      PiecesInOrder(a[1..], b, seps, size, overlap);
      var first := Pieces(a[0], seps, size, overlap);
      assert PiecesOfAll(a + b, seps, size, overlap)
        == first + (PiecesOfAll(a[1..], seps, size, overlap) + PiecesOfAll(b, seps, size, overlap));
    }
  }

  lemma NoSpans(t: string)
    ensures SpansOf(t, [], [])
  {
  }

  lemma AddWindow(t: string, pieces: seq<string>, spans: seq<Span>, i: nat, end: nat)
    requires SpansOf(t, pieces, spans) && i < end <= |t|
    requires forall j :: 0 <= j < |spans| ==> spans[j].from < i && spans[j].to <= end
    ensures SpansOf(t, pieces + [t[i..end]], spans + [Span(i, end)])
  {
  }

  lemma WindowCovers(spans: seq<Span>, i: nat, end: nat, k: nat)
    requires k < end && (k < i ==> Inside(spans, k))
    ensures Inside(spans + [Span(i, end)], k)
  {
    var all := spans + [Span(i, end)];
    if k < i {
      var j :| 0 <= j < |spans| && spans[j].from <= k < spans[j].to;
      assert all[j] == spans[j];
    } else {
      assert all[|spans|] == Span(i, end);
    }
  }

  /** Fixed-size windows, for text that no separator breaks up. A negative overlap would skip text. */
  method Windows(t: string, size: int, overlap: int) returns (pieces: seq<string>, ghost spans: seq<Span>)
    requires size > 0 && overlap < size
    ensures pieces == WindowsFrom(t, size, overlap, 0)
    ensures SpansOf(t, pieces, spans) && Bounded(pieces, size)
    ensures (forall k :: 0 <= k < |t| ==> Inside(spans, k)) <==> 0 <= overlap || |t| <= size
  {
    hide SpansOf, Inside, WindowsFrom;
    pieces, spans := [], [];
    NoSpans(t);
    var i := 0;
    while i < |t|
      invariant 0 <= i && SpansOf(t, pieces, spans) && Bounded(pieces, size)
      invariant pieces + WindowsFrom(t, size, overlap, i) == WindowsFrom(t, size, overlap, 0)
      invariant forall j :: 0 <= j < |spans| ==> spans[j].from < i && spans[j].to <= i + overlap && spans[j].to <= |t|
      invariant forall j :: 0 <= j < |spans| ==> spans[j].to <= size || spans[j].from >= size - overlap
      invariant i == 0 || i >= size - overlap
      invariant 0 <= overlap || i == 0 ==> forall k :: 0 <= k < |t| && k < i ==> Inside(spans, k)
      invariant i > 0 && |t| <= size ==> forall k :: 0 <= k < |t| ==> Inside(spans, k)
      decreases |t| - i
    {
      var end := Min(i + size, |t|);
      AddWindow(t, pieces, spans, i, end);
      NextWindow(t, size, overlap, i, pieces);
      forall k | 0 <= k < end && (k < i ==> Inside(spans, k)) ensures Inside(spans + [Span(i, end)], k) {
        WindowCovers(spans, i, end, k);
      }
      pieces, spans := pieces + [t[i..end]], spans + [Span(i, end)];
      i := i + (size - overlap);
    }
    LastWindow(t, size, overlap, i);
    if overlap < 0 && |t| > size {
      Skipped(spans, size, overlap);
    }
  }

  lemma NextWindow(t: string, size: int, overlap: int, i: nat, before: seq<string>)
    requires size > 0 && overlap < size && i < |t|
    ensures before + WindowsFrom(t, size, overlap, i)
         == before + [t[i..Min(i + size, |t|)]] + WindowsFrom(t, size, overlap, i + (size - overlap))
  {
    hide WindowsFrom;
    WindowsUnfold(t, size, overlap, i);
  }

  lemma WindowsUnfold(t: string, size: int, overlap: int, i: nat)
    requires size > 0 && overlap < size && i < |t|
    ensures WindowsFrom(t, size, overlap, i)
         == [t[i..Min(i + size, |t|)]] + WindowsFrom(t, size, overlap, i + (size - overlap))
  {
  }

  lemma LastWindow(t: string, size: int, overlap: int, i: nat)
    requires size > 0 && overlap < size && i >= |t|
    ensures WindowsFrom(t, size, overlap, i) == []
  {
  }

  lemma Skipped(spans: seq<Span>, size: nat, overlap: int)
    requires overlap < 0 && forall j :: 0 <= j < |spans| ==> spans[j].to <= size || spans[j].from >= size - overlap
    ensures !Inside(spans, size)
  {
  }

  /**
    Split on the first separator, and what is still too long on the others. Without the empty
    separator at the end a piece may stay too long.
   */
  method SplitRecursive(t: string, seps: seq<string>, size: int, overlap: int)
    returns (pieces: seq<string>, ghost spans: seq<Span>)
    requires size > 0 && overlap < size
    ensures pieces == Pieces(t, seps, size, overlap)
    ensures SpansOf(t, pieces, spans)
    ensures "" in seps || |t| <= size ==> Bounded(pieces, size)
    ensures 0 <= overlap ==> CoveredTo(t, seps, spans, |t|)
    decreases |seps|, 1
  {
    if |t| <= size || seps == [] {
      pieces, spans := Whole(t);
      return;
    }
    if seps[0] == "" {
      pieces, spans := Windows(t, size, overlap);
    } else {
      pieces, spans := SplitBySeparator(t, seps, size, overlap);
    }
  }

  method SplitBySeparator(t: string, seps: seq<string>, size: int, overlap: int)
    returns (pieces: seq<string>, ghost spans: seq<Span>)
    requires size > 0 && overlap < size && seps != [] && seps[0] != ""
    ensures pieces == PiecesOfAll(SplitOn(t, seps[0]), seps[1..], size, overlap)
    ensures SpansOf(t, pieces, spans)
    ensures "" in seps ==> Bounded(pieces, size)
    ensures 0 <= overlap ==> CoveredTo(t, seps, spans, |t|)
    decreases |seps|, 0
  {
    var sep := seps[0];
    var parts := SplitOn(t, sep);
    pieces, spans := [], [];
    ghost var n: nat := 0;
    hide *;
    StartSplit(t, seps, size, overlap);
    for k := 0 to |parts|
      invariant AtPart(t, seps, parts, k, pieces, spans, n, size, overlap)
    {
      pieces, spans, n := AddPieces(t, seps, parts, k, pieces, size, overlap, n, spans);
    }
    AllDone(t, seps, pieces, spans, n, parts, size, overlap);
  }

  /** The pieces of the k-th part, which starts at n, behind those of the parts before. */
  method AddPieces(t: string, seps: seq<string>, parts: seq<string>, k: nat, before: seq<string>, size: int,
                   overlap: int, ghost n: nat, ghost spans: seq<Span>)
    returns (pieces: seq<string>, ghost spans': seq<Span>, ghost n': nat)
    requires size > 0 && overlap < size && seps != [] && seps[0] != "" && k < |parts|
    requires AtPart(t, seps, parts, k, before, spans, n, size, overlap)
    ensures AtPart(t, seps, parts, k + 1, pieces, spans', n', size, overlap)
    decreases |seps| - 1, 3
  {
    hide SpansOf, CoveredTo, Bounded, SoFar, Remaining, SplitOn, Shift, IndexOf, OccursAt, Pieces, PiecesOfAll;
    ghost var end := NextPart(t, n, seps[0], parts, k);
    var more;
    ghost var sub;
    more, sub := SplitPart(parts[k], seps[1..], size, overlap);
    AddToSoFar(t, seps, before, spans, n, end, parts[k], more, sub, size, overlap);
    pieces, spans', n' := before + more, spans + Shift(sub, n), end;
    if k + 1 < |parts| {
      SkipSeparator(t, seps, pieces, spans', n', size, overlap);
      n' := end + |seps[0]|;
    }
    NothingRemains(t, seps[0], parts);
    NextPieces(parts, k, seps[1..], size, overlap, before);
  }

  lemma NextPieces(parts: seq<string>, k: nat, seps: seq<string>, size: int, overlap: int, before: seq<string>)
    requires size > 0 && overlap < size && k < |parts|
    ensures before + PiecesOfAll(parts[k..], seps, size, overlap)
         == before + Pieces(parts[k], seps, size, overlap) + PiecesOfAll(parts[k + 1..], seps, size, overlap)
  {
    hide Pieces;
    DropFirst(parts, k);
  }

  lemma StartSplit(t: string, seps: seq<string>, size: int, overlap: int)
    requires size > 0 && overlap < size && seps != [] && seps[0] != ""
    ensures AtPart(t, seps, SplitOn(t, seps[0]), 0, [], [], 0, size, overlap)
  {
    hide PiecesOfAll;
    var parts := SplitOn(t, seps[0]);
    assert t[0..] == t && parts[0..] == parts;
  }

  /** The first k parts have been split; the k-th starts at n. */
  ghost predicate AtPart(t: string, seps: seq<string>, parts: seq<string>, k: nat, pieces: seq<string>,
                         spans: seq<Span>, n: nat, size: int, overlap: int)
    requires size > 0 && overlap < size && seps != [] && seps[0] != "" && k <= |parts|
  {
    && n <= |t| && Remaining(t, n, seps[0], parts, k) && SoFar(t, seps, pieces, spans, n, size, overlap)
    && pieces + PiecesOfAll(parts[k..], seps[1..], size, overlap) == PiecesOfAll(parts, seps[1..], size, overlap)
  }

  /** The pieces found in t up to n. */
  ghost predicate SoFar(t: string, seps: seq<string>, pieces: seq<string>, spans: seq<Span>, n: nat, size: int,
                        overlap: int)
    requires n <= |t|
  {
    && SpansOf(t, pieces, spans) && (forall i :: 0 <= i < |spans| ==> spans[i].to <= n)
    && ("" in seps ==> Bounded(pieces, size))
    && (0 <= overlap ==> CoveredTo(t, seps, spans, n))
  }

  lemma AddToSoFar(t: string, seps: seq<string>, pieces: seq<string>, spans: seq<Span>, n: nat, end: nat, part: string,
                   more: seq<string>, sub: seq<Span>, size: int, overlap: int)
    requires seps != [] && seps[0] != "" && n <= end <= |t| && part == t[n..end]
            && SoFar(t, seps, pieces, spans, n, size, overlap)
    requires SpansOf(part, more, sub) && ("" in seps[1..] ==> Bounded(more, size))
    requires 0 <= overlap ==> CoveredTo(part, seps[1..], sub, |part|)
    ensures SoFar(t, seps, pieces + more, spans + Shift(sub, n), end, size, overlap)
  {
    hide SpansOf, CoveredTo;
    AddPart(t, pieces, spans, n, part, more, sub);
    assert seps == [seps[0]] + seps[1..];
    if 0 <= overlap {
      AddCover(t, seps, seps[1..], seps[0], spans, n, part, sub);
    }
  }

  lemma SkipSeparator(t: string, seps: seq<string>, pieces: seq<string>, spans: seq<Span>, n: nat, size: int,
                      overlap: int)
    requires seps != [] && n + |seps[0]| <= |t| && t[n..n + |seps[0]|] == seps[0]
            && SoFar(t, seps, pieces, spans, n, size, overlap)
    ensures SoFar(t, seps, pieces, spans, n + |seps[0]|, size, overlap)
  {
    hide SpansOf, CoveredTo;
    if 0 <= overlap {
      AddSeparator(t, seps, spans, n, seps[0]);
    }
  }

  lemma AllDone(t: string, seps: seq<string>, pieces: seq<string>, spans: seq<Span>, n: nat, parts: seq<string>,
                size: int, overlap: int)
    requires size > 0 && overlap < size && seps != [] && seps[0] != ""
    requires AtPart(t, seps, parts, |parts|, pieces, spans, n, size, overlap)
    ensures pieces == PiecesOfAll(parts, seps[1..], size, overlap)
    ensures SpansOf(t, pieces, spans) && ("" in seps ==> Bounded(pieces, size))
    ensures 0 <= overlap ==> CoveredTo(t, seps, spans, |t|)
  {
    hide SpansOf, CoveredTo;
  }

  /** A part that is short enough is a piece, unless it is empty. */
  method SplitPart(part: string, rest: seq<string>, size: int, overlap: int)
    returns (pieces: seq<string>, ghost spans: seq<Span>)
    requires size > 0 && overlap < size
    ensures pieces == Pieces(part, rest, size, overlap)
    ensures SpansOf(part, pieces, spans)
    ensures "" in rest ==> Bounded(pieces, size)
    ensures 0 <= overlap ==> CoveredTo(part, rest, spans, |part|)
    decreases |rest|, 2
  {
    if |part| <= size {
      pieces, spans := Whole(part);
    } else {
      pieces, spans := SplitRecursive(part, rest, size, overlap);
    }
  }

  lemma NothingRemains(t: string, sep: string, parts: seq<string>)
    requires sep != ""
    ensures forall n: nat :: Remaining(t, n, sep, parts, |parts|) <==> n == |t|
  {
  }

  /** The parts from the k-th on are what t from n on splits into. */
  ghost predicate Remaining(t: string, n: nat, sep: string, parts: seq<string>, k: nat)
    requires sep != "" && k <= |parts|
  {
    n <= |t| && if k < |parts| then SplitOn(t[n..], sep) == parts[k..] else n == |t|
  }

  /** Behind the k-th part comes a separator, or nothing if it is the last. */
  lemma NextPart(t: string, n: nat, sep: string, parts: seq<string>, k: nat) returns (end: nat)
    requires sep != "" && k < |parts| && Remaining(t, n, sep, parts, k)
    ensures n <= end <= |t| && parts[k] == t[n..end]
    ensures if k + 1 < |parts| then
              end + |sep| <= |t| && t[end..end + |sep|] == sep && Remaining(t, end + |sep|, sep, parts, k + 1)
            else end == |t|
  {
    hide *;
    RemainingIs(t, n, sep, parts, k);
    var rest := t[n..];
    FirstPart(rest, sep);
    DropFirst(parts, k);
    var at := IndexOf(rest, sep);
    end := n + at;
    TailSlices(t, n, 0, at);
    if at < |rest| {
      TailSlices(t, n, at, at + |sep|);
      assert n + (at + |sep|) == end + |sep|;
      RemainingIs(t, end + |sep|, sep, parts, k + 1);
    }
  }

  lemma RemainingIs(t: string, n: nat, sep: string, parts: seq<string>, k: nat)
    requires sep != "" && k < |parts|
    ensures Remaining(t, n, sep, parts, k) <==> n <= |t| && SplitOn(t[n..], sep) == parts[k..]
  {
  }

  lemma DropFirst(parts: seq<string>, k: nat)
    requires k < |parts|
    ensures parts[k..][0] == parts[k] && parts[k..][1..] == parts[k + 1..] && |parts[k..]| == |parts| - k
  {
  }

  lemma FirstPart(t: string, sep: string)
    requires sep != ""
    ensures IndexOf(t, sep) <= |t| && SplitOn(t, sep)[0] == t[..IndexOf(t, sep)]
    ensures var at := IndexOf(t, sep);
      if at == |t| then |SplitOn(t, sep)| == 1
      else
        && at + |sep| <= |t| && t[at..at + |sep|] == sep && |SplitOn(t, sep)| > 1
        && SplitOn(t, sep)[1..] == SplitOn(t[at + |sep|..], sep)
  {
    SplitUnfolds(t, sep);
    hide SplitOn, IndexOf;
    var i := IndexOf(t, sep);
    if i < |t| {
      PrependDrops(t[..i], SplitOn(t[i + |sep|..], sep));
    } else {
      assert t[..i] == t;
    }
  }

  lemma PrependDrops(first: string, rest: seq<string>)
    ensures ([first] + rest)[0] == first && ([first] + rest)[1..] == rest
  {
  }

  method Whole(t: string) returns (pieces: seq<string>, ghost spans: seq<Span>)
    ensures pieces == if t == "" then [] else [t]
    ensures spans == if t == "" then [] else [Span(0, |t|)]
    ensures SpansOf(t, pieces, spans) && forall seps :: CoveredTo(t, seps, spans, |t|)
  {
    pieces, spans := if t == "" then [] else [t], if t == "" then [] else [Span(0, |t|)];
    forall seps ensures CoveredTo(t, seps, spans, |t|) {
      WholeCovers(t, seps);
    }
    assert t == t[0..|t|];
  }

  lemma WholeCovers(t: string, seps: seq<string>)
    ensures CoveredTo(t, seps, if t == "" then [] else [Span(0, |t|)], |t|)
  {
    if t != "" {
      var spans := [Span(0, |t|)];
      forall k | 0 <= k < |t| ensures Inside(spans, k) {
        assert spans[0].from <= k < spans[0].to;
      }
    }
  }

  // ---- Merging

  lemma {:induction false} SumAppend(a: seq<string>, b: seq<string>)
    ensures Sum(a + b) == Sum(a) + Sum(b)
    decreases a
  {
    if a == [] {
      assert a + b == b;
    } else {
      assert (a + b)[1..] == a[1..] + b;
      SumAppend(a[1..], b);
    }
  }

  lemma {:induction false} JoinLength(items: seq<string>)
    requires items != []
    ensures |Join(items, "\n")| == Sum(items) + |items| - 1
    decreases items
  {
    if |items| > 1 {
      JoinLength(items[1..]);
    } else {
      assert items[1..] == [];
    }
  }

  lemma {:induction false} CountAtMostSum(items: seq<string>)
    requires forall i :: 0 <= i < |items| ==> items[i] != ""
    ensures |items| <= Sum(items)
    decreases items
  {
    if items != [] {
      CountAtMostSum(items[1..]);
    }
  }

  function NotNegative(n: int): nat {
    if n < 0 then 0 else n
  }

  /** Where the longest tail begins whose items have at most `overlap` characters together. */
  function TailStart(chunk: seq<string>, overlap: int): (m: nat)
    ensures m <= |chunk| && Sum(chunk[m..]) <= NotNegative(overlap)
    ensures m > 0 ==> Sum(chunk[m - 1..]) > overlap
  {
    if chunk == [] || Sum(chunk) <= overlap then 0
    else
      var rest := TailStart(chunk[1..], overlap);
      assert chunk[1..][rest..] == chunk[rest + 1..] && (rest > 0 ==> chunk[1..][rest - 1..] == chunk[rest..]);
      rest + 1
  }

  /** A shorter tail has fewer characters, so only one tail is the longest. */
  lemma {:induction false} TailStartIs(chunk: seq<string>, overlap: int, m: nat)
    requires forall i :: 0 <= i < |chunk| ==> chunk[i] != ""
    requires m <= |chunk| && Sum(chunk[m..]) <= NotNegative(overlap) && (m > 0 ==> Sum(chunk[m - 1..]) > overlap)
    ensures TailStart(chunk, overlap) == m
  {
    var s := TailStart(chunk, overlap);
    if s < m {
      TailShorter(chunk, s, m - 1);
    } else if m < s {
      TailShorter(chunk, m, s - 1);
    }
  }

  lemma TailShorter(chunk: seq<string>, a: nat, b: nat)
    requires a <= b < |chunk| && forall i :: 0 <= i < |chunk| ==> chunk[i] != ""
    ensures Sum(chunk[b..]) <= Sum(chunk[a..]) && 0 < Sum(chunk[b..])
  {
    assert chunk[a..] == chunk[a..b] + chunk[b..];
    SumAppend(chunk[a..b], chunk[b..]);
  }

  method Tail(chunk: seq<string>, overlap: int) returns (tail: seq<string>)
    requires forall i :: 0 <= i < |chunk| ==> chunk[i] != ""
    ensures tail == chunk[TailStart(chunk, overlap)..]
  {
    tail := [];
    var length := 0;
    ghost var m := |chunk|;
    for k := |chunk| downto 0
      invariant k == m && tail == chunk[k..] && length == Sum(tail) <= NotNegative(overlap)
    {
      assert chunk[k..] == [chunk[k]] + chunk[k + 1..];
      SumAppend([chunk[k]], chunk[k + 1..]);
      assert Sum([chunk[k]]) == |chunk[k]|;
      if length + |chunk[k]| > overlap {
        m := k + 1;
        break;
      }
      tail, length, m := [chunk[k]] + tail, length + |chunk[k]|, k;
    }
    TailStartIs(chunk, overlap, m);
  }

  /** Each chunk is a run of consecutive items, and begins with the tail it shares with the one before. */
  ghost predicate Grouped(items: seq<string>, chunks: seq<string>, groups: seq<Span>, n: nat, overlap: int, most: nat)
    requires n <= |items|
  {
    && |groups| == |chunks|
    && (forall i :: 0 <= i < |groups| ==> GroupOk(items, chunks[i], groups[i], n, most))
    && (groups != [] ==> groups[0].from == 0)
    && (forall i :: 0 < i < |groups| ==> GroupsMeet(items, groups[i - 1], groups[i], overlap))
  }

  ghost predicate GroupOk(items: seq<string>, chunk: string, g: Span, n: nat, most: nat)
    requires n <= |items|
  {
    g.from < g.to <= n && chunk == Join(items[g.from..g.to], "\n") && Sum(items[g.from..g.to]) <= most
  }

  /** No item between two chunks is left out; what they share is short, and as long as possible. */
  ghost predicate GroupsMeet(items: seq<string>, g: Span, h: Span, overlap: int) {
    && g.from <= h.from <= g.to < h.to && g.to <= |items|
    && Sum(items[h.from..g.to]) <= NotNegative(overlap)
    && (g.from < h.from ==> Sum(items[h.from - 1..g.to]) > overlap)
  }

  /** Behind its first new item a chunk takes items only while they fit. */
  ghost predicate Packed(items: seq<string>, from: nat, start: nat, to: nat, size: int)
    requires from <= to <= |items|
  {
    forall j :: from < j && start + 1 < j <= to ==> Sum(items[from..j]) + 1 <= size
  }

  /** The place of the first item that a group does not share with the one before. */
  function FirstNew(groups: seq<Span>, i: nat): nat
    requires i <= |groups|
  {
    if i == 0 then 0 else groups[i - 1].to
  }

  /** A chunk is closed exactly when the next item does not fit any more. */
  ghost predicate Greedy(items: seq<string>, groups: seq<Span>, size: int) {
    forall i :: 0 <= i < |groups| ==> FullGroup(items, groups[i], FirstNew(groups, i), size)
  }

  ghost predicate FullGroup(items: seq<string>, g: Span, start: nat, size: int) {
    && g.from <= g.to <= |items| && Packed(items, g.from, start, g.to, size)
    && (g.to < |items| ==> Sum(items[g.from..g.to]) + |items[g.to]| + 1 > size)
  }

  lemma GreedyEmit(items: seq<string>, groups: seq<Span>, f: nat, k: nat, size: int)
    requires f <= k <= |items| && Greedy(items, groups, size) && Packed(items, f, FirstNew(groups, |groups|), k, size)
    requires k < |items| ==> Sum(items[f..k]) + |items[k]| + 1 > size
    ensures Greedy(items, groups + [Span(f, k)], size)
    ensures FirstNew(groups + [Span(f, k)], |groups| + 1) == k
  {
    var groups' := groups + [Span(f, k)];
    assert FullGroup(items, Span(f, k), FirstNew(groups, |groups|), size);
    hide FullGroup, Packed;
    forall i | 0 <= i < |groups'| ensures FullGroup(items, groups'[i], FirstNew(groups', i), size) {
      assert FirstNew(groups', i) == FirstNew(groups, i);
      if i < |groups| {
        assert groups'[i] == groups[i];
      }
    }
  }

  lemma PackMore(items: seq<string>, f: nat, start: nat, k: nat, size: int)
    requires f <= k < |items| && Packed(items, f, start, k, size)
    requires k <= start || Sum(items[f..k + 1]) + 1 <= size
    ensures Packed(items, f, start, k + 1, size)
  {
  }

  /** The items from f to k have not been put into a chunk of their own yet. */
  ghost predicate Open(items: seq<string>, groups: seq<Span>, f: nat, k: nat, overlap: int) {
    if groups == [] then f == 0 && f <= k else GroupsMeet(items, groups[|groups| - 1], Span(f, k), overlap)
  }

  lemma Emit(items: seq<string>, chunks: seq<string>, groups: seq<Span>, f: nat, k: nat, overlap: int, most: nat)
    requires f < k <= |items| && Sum(items[f..k]) <= most
    requires Grouped(items, chunks, groups, k, overlap, most) && Open(items, groups, f, k, overlap)
    ensures Grouped(items, chunks + [Join(items[f..k], "\n")], groups + [Span(f, k)], k, overlap, most)
  {
    hide GroupsMeet;
    var chunks', groups' := chunks + [Join(items[f..k], "\n")], groups + [Span(f, k)];
    assert GroupOk(items, chunks'[|chunks|], groups'[|groups|], k, most);
    hide GroupOk;
  }

  lemma StillGrouped(items: seq<string>, chunks: seq<string>, groups: seq<Span>, k: nat, overlap: int, most: nat)
    requires k < |items| && Grouped(items, chunks, groups, k, overlap, most)
    ensures Grouped(items, chunks, groups, k + 1, overlap, most)
  {
    hide GroupsMeet;
  }

  lemma TailMeets(items: seq<string>, groups: seq<Span>, f: nat, k: nat, m: nat, overlap: int)
    requires f + m <= k < |items|
    requires Sum(items[f..k][m..]) <= NotNegative(overlap) && (m > 0 ==> Sum(items[f..k][m - 1..]) > overlap)
    ensures Open(items, groups + [Span(f, k)], f + m, k + 1, overlap)
  {
    assert items[f..k][m..] == items[f + m..k];
    if m > 0 {
      assert items[f..k][m - 1..] == items[f + m - 1..k];
    }
  }

  lemma UpTo(items: seq<string>, f: nat, k: nat)
    requires f <= k < |items|
    ensures Sum(items[f..k + 1]) == Sum(items[f..k]) + |items[k]|
    ensures f == 0 ==> Sum(items[f..k + 1]) <= Sum(items)
  {
    assert items[f..k + 1] == items[f..k] + [items[k]];
    SumAppend(items[f..k], [items[k]]);
    assert Sum([items[k]]) == |items[k]| + Sum([]);
    if f == 0 {
      assert items == items[..k + 1] + items[k + 1..];
      SumAppend(items[..k + 1], items[k + 1..]);
      assert items[0..k + 1] == items[..k + 1];
    }
  }

  /** The chunks that are still to come before the k-th item, when the last chunk so far holds `current`. */
  function MergeFrom(items: seq<string>, k: nat, current: seq<string>, size: int, overlap: int): seq<string>
    requires k <= |items|
    decreases |items| - k
  {
    if k == |items| then if current == [] then [] else [Join(current, "\n")]
    else if Sum(current) + |items[k]| + 1 > size && current != [] then
      [Join(current, "\n")]
      + MergeFrom(items, k + 1, current[TailStart(current, overlap)..] + [items[k]], size, overlap)
    else MergeFrom(items, k + 1, current + [items[k]], size, overlap)
  }

  method Merge(items: seq<string>, size: int, overlap: int) returns (chunks: seq<string>)
    requires forall i :: 0 <= i < |items| ==> items[i] != ""
    ensures chunks == MergeFrom(items, 0, [], size, overlap)
  {
    hide Join, TailStart;
    chunks := [];
    var current: seq<string>, length := [], 0;
    for k := 0 to |items|
      invariant length == Sum(current) && forall i :: 0 <= i < |current| ==> current[i] != ""
      invariant chunks + MergeFrom(items, k, current, size, overlap) == MergeFrom(items, 0, [], size, overlap)
    {
      if length + |items[k]| + 1 > size && current != [] {
        chunks := chunks + [Join(current, "\n")];
        current := Tail(current, overlap);
        length := Sum(current);
      }
      SumAppend(current, [items[k]]);
      assert Sum([items[k]]) == |items[k]|;
      current, length := current + [items[k]], length + |items[k]|;
    }
    if current != [] {
      chunks := chunks + [Join(current, "\n")];
    }
  }

  /** What a grouping of the items into chunks has to satisfy. */
  ghost predicate Grouping(items: seq<string>, chunks: seq<string>, groups: seq<Span>, size: int, overlap: int,
                           most: nat)
  {
    && Grouped(items, chunks, groups, |items|, overlap, most) && Greedy(items, groups, size)
    && (if items == [] then groups == [] else groups != [] && groups[|groups| - 1].to == |items|)
  }

  /** The groups so far, and the open one from f on, when the k-th item comes. */
  ghost predicate GroupingTo(items: seq<string>, chunks: seq<string>, groups: seq<Span>, f: nat, k: nat, size: int,
                             overlap: int, most: nat)
  {
    && f <= k <= |items| && (k > 0 ==> f < k)
    && Grouped(items, chunks, groups, k, overlap, most) && Open(items, groups, f, k, overlap)
    && FirstNew(groups, |groups|) <= k && (k > 0 ==> FirstNew(groups, |groups|) < k)
    && Greedy(items, groups, size) && Packed(items, f, FirstNew(groups, |groups|), k, size)
    && Sum(items[f..k]) <= most
  }

  lemma GroupingStarts(items: seq<string>, size: int, overlap: int, most: nat)
    ensures GroupingTo(items, [], [], 0, 0, size, overlap, most)
  {
    assert items[0..0] == [];
  }

  /** The next item fits into the open chunk, or comes first in it. */
  lemma TakeItem(items: seq<string>, chunks: seq<string>, groups: seq<Span>, f: nat, k: nat, size: int, overlap: int,
                 most: nat)
    requires GroupingTo(items, chunks, groups, f, k, size, overlap, most) && k < |items|
    requires Sum(items[f..k]) + |items[k]| + 1 <= size || f == k
    requires |items[k]| <= most && size <= most
    ensures GroupingTo(items, chunks, groups, f, k + 1, size, overlap, most)
    ensures items[f..k] + [items[k]] == items[f..k + 1]
  {
    hide Grouped, Open, Greedy, Packed;
    UpTo(items, f, k);
    OpenLater(items, groups, f, k, overlap);
    PackMore(items, f, FirstNew(groups, |groups|), k, size);
    StillGrouped(items, chunks, groups, k, overlap, most);
  }

  /** The next item does not fit: the chunk is closed and its tail carried over. */
  lemma CloseChunk(items: seq<string>, chunks: seq<string>, groups: seq<Span>, f: nat, k: nat, size: int, overlap: int,
                   most: nat, m: nat)
    requires GroupingTo(items, chunks, groups, f, k, size, overlap, most) && f < k < |items|
    requires Sum(items[f..k]) + |items[k]| + 1 > size && m == TailStart(items[f..k], overlap)
    requires |items[k]| + NotNegative(overlap) <= most
    ensures GroupingTo(items, chunks + [Join(items[f..k], "\n")], groups + [Span(f, k)], f + m, k + 1, size, overlap,
                       most)
    ensures items[f..k][m..] + [items[k]] == items[f + m..k + 1]
  {
    hide Grouped, Open, Greedy, Packed, Join, Sum, TailStart;
    assert items[f..k][m..] == items[f + m..k];
    Emit(items, chunks, groups, f, k, overlap, most);
    TailMeets(items, groups, f, k, m, overlap);
    GreedyEmit(items, groups, f, k, size);
    PackNothing(items, f + m, k, size);
    StillGrouped(items, chunks + [Join(items[f..k], "\n")], groups + [Span(f, k)], k, overlap, most);
    UpTo(items, f + m, k);
  }

  lemma {:induction false} MergeGroups(items: seq<string>, chunks: seq<string>, groups: seq<Span>, f: nat, k: nat,
                                       size: int, overlap: int, longest: nat) returns (all: seq<Span>)
    requires size <= longest && forall i :: 0 <= i < |items| ==> items[i] != "" && |items[i]| <= longest
    requires f <= k <= |items| && GroupingTo(items, chunks, groups, f, k, size, overlap, longest + NotNegative(overlap))
    ensures Grouping(items, chunks + MergeFrom(items, k, items[f..k], size, overlap), all, size, overlap,
                     longest + NotNegative(overlap))
    decreases |items| - k
  {
    hide *;
    var most: nat := longest + NotNegative(overlap);
    var current := items[f..k];
    if k == |items| {
      assert items[f..k] == items[f..];
      all := LastChunk(items, chunks, groups, f, size, overlap, most);
      return;
    }
    MergeUnfolds(items, k, current, size, overlap, chunks);
    if Sum(current) + |items[k]| + 1 > size && current != [] {
      var m := TailStart(current, overlap);
      CloseChunk(items, chunks, groups, f, k, size, overlap, most, m);
      all := MergeGroups(items, chunks + [Join(current, "\n")], groups + [Span(f, k)], f + m, k + 1, size, overlap,
                         longest);
    } else {
      TakeItem(items, chunks, groups, f, k, size, overlap, most);
      all := MergeGroups(items, chunks, groups, f, k + 1, size, overlap, longest);
    }
  }

  lemma MergeUnfolds(items: seq<string>, k: nat, current: seq<string>, size: int, overlap: int, chunks: seq<string>)
    requires k < |items|
    ensures chunks + MergeFrom(items, k, current, size, overlap)
         == if Sum(current) + |items[k]| + 1 > size && current != [] then
              chunks + [Join(current, "\n")]
              + MergeFrom(items, k + 1, current[TailStart(current, overlap)..] + [items[k]], size, overlap)
            else chunks + MergeFrom(items, k + 1, current + [items[k]], size, overlap)
  {
    hide Join, Sum, TailStart;
  }

  lemma LastChunk(items: seq<string>, chunks: seq<string>, groups: seq<Span>, f: nat, size: int, overlap: int,
                  most: nat)
    returns (all: seq<Span>)
    requires GroupingTo(items, chunks, groups, f, |items|, size, overlap, most)
    ensures Grouping(items, chunks + MergeFrom(items, |items|, items[f..], size, overlap), all, size, overlap, most)
  {
    hide Open, Greedy, Packed;
    if items == [] {
      NoGroups(items, chunks, groups, overlap, most);
      assert chunks + [] == [];
      return groups;
    }
    assert items[f..|items|] == items[f..];
    Emit(items, chunks, groups, f, |items|, overlap, most);
    GreedyEmit(items, groups, f, |items|, size);
    return groups + [Span(f, |items|)];
  }

  /** The chunks are runs of consecutive items, closed exactly when the next item does not fit. */
  lemma MergeIsGreedy(items: seq<string>, size: int, overlap: int, longest: nat) returns (groups: seq<Span>)
    requires size <= longest && forall i :: 0 <= i < |items| ==> items[i] != "" && |items[i]| <= longest
    ensures Grouping(items, MergeFrom(items, 0, [], size, overlap), groups, size, overlap,
                     longest + NotNegative(overlap))
  {
    hide *;
    GroupingStarts(items, size, overlap, longest + NotNegative(overlap));
    groups := MergeGroups(items, [], [], 0, 0, size, overlap, longest);
    assert items[0..0] == [];
    assert [] + MergeFrom(items, 0, [], size, overlap) == MergeFrom(items, 0, [], size, overlap);
  }

  lemma PackNothing(items: seq<string>, f: nat, k: nat, size: int)
    requires f <= k < |items|
    ensures Packed(items, f, k, k + 1, size)
  {
  }

  lemma OpenLater(items: seq<string>, groups: seq<Span>, f: nat, k: nat, overlap: int)
    requires f <= k && Open(items, groups, f, k, overlap)
    ensures Open(items, groups, f, k + 1, overlap)
  {
  }

  lemma NoGroups(items: seq<string>, chunks: seq<string>, groups: seq<Span>, overlap: int, most: nat)
    requires items == [] && Grouped(items, chunks, groups, 0, overlap, most)
    ensures groups == []
  {
  }

  // ---- The whole

  datatype Outcome = Chunks(chunks: seq<string>) | BadSize | BadOverlap

  const DEFAULT_SEPARATORS: seq<string> := ["\n\n", "\n", "。", ".", " ", ""]

  function Separators(separators: seq<string>): (seps: seq<string>)
    ensures seps != []
  {
    if separators == [] then DEFAULT_SEPARATORS else separators
  }

  function ChunksOf(text: string, seps: seq<string>, size: int, overlap: int): seq<string>
    requires size > 0 && overlap < size
  {
    if text == "" then []
    else if |text| <= size then [text]
    else MergeFrom(Pieces(text, seps, size, overlap), 0, [], size, overlap)
  }

  /** How the chunks come from the text: slices that leave out separators only, grouped in order. */
  ghost predicate MadeFrom(text: string, seps: seq<string>, chunks: seq<string>, size: int, overlap: int, most: nat) {
    exists pieces: seq<string>, spans: seq<Span>, groups: seq<Span> ::
      Made(text, seps, chunks, size, overlap, most, pieces, spans, groups)
  }

  ghost predicate Made(text: string, seps: seq<string>, chunks: seq<string>, size: int, overlap: int, most: nat,
                       pieces: seq<string>, spans: seq<Span>, groups: seq<Span>)
  {
    && SpansOf(text, pieces, spans)
    && (0 <= overlap ==> CoveredTo(text, seps, spans, |text|))
    && Grouping(pieces, chunks, groups, size, overlap, most)
  }

  function Longest(pieces: seq<string>): (n: nat)
    ensures forall i :: 0 <= i < |pieces| ==> |pieces[i]| <= n
  {
    if pieces == [] then 0 else
      var rest := Longest(pieces[1..]);
      if |pieces[0]| > rest then |pieces[0]| else rest
  }

  /** The longest a chunk can get: carried items and a full one, or single characters and newlines. */
  function LongestChunk(size: int, overlap: int): int {
    if size + 2 * NotNegative(overlap) >= 2 * size - 3 then size + 2 * NotNegative(overlap) else 2 * size - 3
  }

  ghost predicate NotEmpty(items: seq<string>) {
    forall i :: 0 <= i < |items| ==> items[i] != ""
  }

  lemma ChunkLength(items: seq<string>, chunks: seq<string>, groups: seq<Span>, size: int, overlap: int, most: nat,
                    i: nat)
    requires Grouping(items, chunks, groups, size, overlap, most) && i < |chunks|
    requires NotEmpty(items) && Bounded(items, size)
    ensures 0 < |chunks[i]| <= LongestChunk(size, overlap)
  {
    hide *;
    GroupHolds(items, chunks, groups, size, overlap, most, i);
    JoinedLength(items, groups[i].from, FirstNew(groups, i), groups[i].to, size, overlap);
  }

  /** Items carried over up to `start`, one new item, and more while they fit. */
  lemma JoinedLength(items: seq<string>, f: nat, start: nat, to: nat, size: int, overlap: int)
    requires f <= start < to <= |items| && NotEmpty(items) && Bounded(items, size)
    requires Sum(items[f..start]) <= NotNegative(overlap) && Packed(items, f, start, to, size)
    ensures 0 < |Join(items[f..to], "\n")| <= LongestChunk(size, overlap)
  {
    hide *;
    RunLength(items, f, to);
    if to == start + 1 {
      UpTo(items, f, start);
      RunLength(items, f, start);
      ItemLength(items, size, start);
      CarriedLength(size, overlap, Sum(items[f..start]), |items[start]|, start - f);
    } else {
      PackedRun(items, f, start, to, size);
      PackedLength(size, overlap, Sum(items[f..to]), to - f);
    }
  }

  lemma ItemLength(items: seq<string>, size: int, i: nat)
    requires Bounded(items, size) && i < |items|
    ensures |items[i]| <= size
  {
  }

  lemma CarriedLength(size: int, overlap: int, carried: nat, last: nat, count: nat)
    requires carried <= NotNegative(overlap) && last <= size && count <= carried
    ensures carried + last + count <= LongestChunk(size, overlap)
  {
  }

  lemma PackedLength(size: int, overlap: int, sum: nat, count: nat)
    requires sum + 1 <= size && count <= sum
    ensures sum + count - 1 <= LongestChunk(size, overlap)
  {
  }

  lemma PackedRun(items: seq<string>, f: nat, start: nat, to: nat, size: int)
    requires f < to <= |items| && start + 1 < to && Packed(items, f, start, to, size)
    ensures Sum(items[f..to]) + 1 <= size
  {
  }

  /** What a run of items comes to, joined. */
  lemma RunLength(items: seq<string>, f: nat, to: nat)
    requires NotEmpty(items) && f <= to <= |items|
    ensures to - f <= Sum(items[f..to])
    ensures f < to ==> |Join(items[f..to], "\n")| == Sum(items[f..to]) + (to - f) - 1
  {
    hide Join, Sum;
    CountAtMostSum(items[f..to]);
    if f < to {
      JoinLength(items[f..to]);
    }
  }

  /** A chunk begins with items carried over from the one before, and is as full as it can be. */
  lemma GroupHolds(items: seq<string>, chunks: seq<string>, groups: seq<Span>, size: int, overlap: int, most: nat,
                   i: nat)
    requires Grouping(items, chunks, groups, size, overlap, most) && i < |chunks|
    ensures |groups| == |chunks|
    ensures var g, start := groups[i], FirstNew(groups, i);
      && g.from <= start < g.to <= |items| && chunks[i] == Join(items[g.from..g.to], "\n")
      && Sum(items[g.from..start]) <= NotNegative(overlap)
      && Packed(items, g.from, start, g.to, size)
  {
    hide Join, Packed;
    var g, start := groups[i], FirstNew(groups, i);
    assert GroupOk(items, chunks[i], g, |items|, most) && FullGroup(items, g, start, size);
    if i == 0 {
      assert items[g.from..start] == [];
    } else {
      assert GroupsMeet(items, groups[i - 1], g, overlap);
    }
  }

  lemma ChunkLengths(items: seq<string>, size: int, overlap: int)
    requires size > 0 && NotEmpty(items) && Bounded(items, size)
    ensures var chunks := MergeFrom(items, 0, [], size, overlap);
      NotEmpty(chunks) && Bounded(chunks, LongestChunk(size, overlap))
  {
    hide MergeFrom, Grouping;
    var chunks := MergeFrom(items, 0, [], size, overlap);
    var groups := MergeIsGreedy(items, size, overlap, size);
    forall i | 0 <= i < |chunks| ensures 0 < |chunks[i]| <= LongestChunk(size, overlap) {
      ChunkLength(items, chunks, groups, size, overlap, size + NotNegative(overlap), i);
    }
  }

  /** Text that does not fit into one chunk. */
  method SplitLong(text: string, size: int, overlap: int, seps: seq<string>) returns (chunks: seq<string>)
    requires 0 < size < |text| && overlap < size
    ensures chunks == ChunksOf(text, seps, size, overlap)
    ensures exists most: nat :: MadeFrom(text, seps, chunks, size, overlap, most)
    ensures "" in seps ==> MadeFrom(text, seps, chunks, size, overlap, size + NotNegative(overlap))
    ensures "" in seps ==> NotEmpty(chunks) && Bounded(chunks, LongestChunk(size, overlap))
  {
    hide SpansOf, CoveredTo, Grouping, Bounded, NotEmpty, Pieces, MergeFrom;
    var pieces, spans := SplitRecursive(text, seps, size, overlap);
    ghost var longest := LongestOf(text, seps, size, pieces, spans);
    chunks := Merge(pieces, size, overlap);
    ghost var groups := MergeIsGreedy(pieces, size, overlap, longest);
    ghost var most: nat := longest + NotNegative(overlap);
    assert Made(text, seps, chunks, size, overlap, most, pieces, spans, groups);
    assert MadeFrom(text, seps, chunks, size, overlap, most);
    if "" in seps {
      ChunkLengths(pieces, size, overlap);
    }
  }

  lemma LongestOf(text: string, seps: seq<string>, size: nat, pieces: seq<string>, spans: seq<Span>)
    returns (longest: nat)
    requires SpansOf(text, pieces, spans) && ("" in seps || |text| <= size ==> Bounded(pieces, size))
    ensures NotEmpty(pieces)
    ensures size <= longest && forall i :: 0 <= i < |pieces| ==> pieces[i] != "" && |pieces[i]| <= longest
    ensures "" in seps ==> longest == size
  {
    longest := if "" in seps || Longest(pieces) < size then size else Longest(pieces);
  }

  method SplitText(text: string, size: int, overlap: int, separators: seq<string>) returns (r: Outcome)
    ensures text == "" ==> r == Chunks([])
    ensures text != "" ==> (r.BadSize? <==> size <= 0) && (r.BadOverlap? <==> size > 0 && overlap >= size)
    ensures r.Chunks? && 0 < |text| <= size ==> r.chunks == [text]
    ensures r.Chunks? && text != "" ==> r.chunks == ChunksOf(text, Separators(separators), size, overlap)
    ensures r.Chunks? && |text| > size && text != "" ==>
      var seps := if separators == [] then ["\n\n", "\n", "。", ".", " ", ""] else separators;
      r.chunks == MergeFrom(Pieces(text, seps, size, overlap), 0, [], size, overlap)
    ensures r.Chunks? && |text| > size && text != "" ==>
      var seps := Separators(separators);
      && (exists most: nat :: MadeFrom(text, seps, r.chunks, size, overlap, most))
      && ("" in seps ==>
            && MadeFrom(text, seps, r.chunks, size, overlap, size + NotNegative(overlap))
            && NotEmpty(r.chunks) && Bounded(r.chunks, LongestChunk(size, overlap)))
  {
    if text == "" {
      return Chunks([]);
    }
    if size <= 0 {
      return BadSize;
    }
    if overlap >= size {
      return BadOverlap;
    }
    if |text| <= size {
      return Chunks([text]);
    }
    hide MadeFrom, Bounded, NotEmpty, Pieces, MergeFrom;
    var chunks := SplitLong(text, size, overlap, Separators(separators));
    return Chunks(chunks);
  }

  // ---- When the size asked for bounds the chunks

  lemma {:induction false} PiecesAreShort(t: string, seps: seq<string>, size: int, overlap: int)
    requires size > 0 && overlap < size && ("" in seps || |t| <= size)
    ensures NotEmpty(Pieces(t, seps, size, overlap)) && Bounded(Pieces(t, seps, size, overlap), size)
    decreases |seps|, 0
  {
    if |t| > size {
      if seps[0] == "" {
        WindowChain(t, size, overlap, 0);
      } else {
        AllPiecesAreShort(SplitOn(t, seps[0]), seps[1..], size, overlap);
      }
    }
  }

  lemma {:induction false} AllPiecesAreShort(parts: seq<string>, seps: seq<string>, size: int, overlap: int)
    requires size > 0 && overlap < size && "" in seps
    ensures var pieces := PiecesOfAll(parts, seps, size, overlap); NotEmpty(pieces) && Bounded(pieces, size)
    decreases |seps|, 1, |parts|
  {
    if parts != [] {
      PiecesAreShort(parts[0], seps, size, overlap);
      AllPiecesAreShort(parts[1..], seps, size, overlap);
    }
  }

  /** A window is full, or the next one is shorter by one step. */
  ghost predicate Chain(items: seq<string>, size: int, step: int) {
    forall i :: 0 <= i < |items| - 1 ==> |items[i]| == size || |items[i + 1]| == |items[i]| - step
  }

  lemma {:induction false} WindowChain(t: string, size: int, overlap: int, i: nat)
    requires size > 0 && overlap < size
    ensures var items := WindowsFrom(t, size, overlap, i);
      NotEmpty(items) && Bounded(items, size) && Chain(items, size, size - overlap)
    decreases |t| - i
  {
    if i < |t| {
      var rest := WindowsFrom(t, size, overlap, i + (size - overlap));
      WindowChain(t, size, overlap, i + (size - overlap));
      var items := WindowsFrom(t, size, overlap, i);
      assert items[1..] == rest;
      assert rest != [] ==> |rest[0]| == Min(size, |t| - i - (size - overlap));
    }
  }

  // Text that reaches the longest chunk.

  function Word(c: char, n: nat): (w: string)
    ensures |w| == n && forall i :: 0 <= i < n ==> w[i] == c
  {
    seq(n, _ => c)
  }

  function Letters(c: char, n: nat): (items: seq<string>)
    ensures |items| == n && forall i :: 0 <= i < n ==> items[i] == [c]
  {
    seq(n, _ => [c])
  }

  /** n letters, each followed by the separator, and a last word. */
  function Row(c: char, sep: string, n: nat, last: string): (t: string)
    ensures sep != "" ==> |t| >= 2 * n + |last|
  {
    if n == 0 then last else [c] + sep + Row(c, sep, n - 1, last)
  }

  lemma {:induction false} NoSeparatorInside(w: string, sep: string, c: char)
    requires sep != "" && sep[0] != c && forall i :: 0 <= i < |w| ==> w[i] == c
    ensures IndexOf(w, sep) == |w|
    decreases w
  {
    if w != "" {
      assert !OccursAt(w, sep, 0) by {
        assert |sep| <= |w| ==> w[0..|sep|][0] == c;
      }
      NoSeparatorInside(w[1..], sep, c);
    }
  }

  lemma {:induction false} SplitRow(c: char, sep: string, n: nat, m: nat)
    requires sep != "" && sep[0] != c
    ensures SplitOn(Row(c, sep, n, Word(c, m)), sep) == Letters(c, n) + [Word(c, m)]
  {
    var last := Word(c, m);
    var t := Row(c, sep, n, last);
    hide SplitOn, IndexOf;
    SplitUnfolds(t, sep);
    if n == 0 {
      NoSeparatorInside(last, sep, c);
    } else {
      var rest := Row(c, sep, n - 1, last);
      FirstLetter(c, sep, rest);
      SplitRow(c, sep, n - 1, m);
      assert t[1 + |sep|..] == rest && t[..1] == [c];
      assert Letters(c, n) == [[c]] + Letters(c, n - 1);
    }
  }

  lemma FirstLetter(c: char, sep: string, rest: string)
    requires sep != "" && sep[0] != c
    ensures IndexOf([c] + sep + rest, sep) == 1
  {
    var t := [c] + sep + rest;
    assert t[0..|sep|][0] == c && t[1..] == sep + rest && (sep + rest)[0..|sep|] == sep;
    assert !OccursAt(t, sep, 0) && OccursAt(t[1..], sep, 0);
  }

  lemma {:induction false} ShortParts(parts: seq<string>, seps: seq<string>, size: int, overlap: int)
    requires size > 0 && overlap < size && NotEmpty(parts) && Bounded(parts, size)
    ensures PiecesOfAll(parts, seps, size, overlap) == parts
    decreases parts
  {
    if parts != [] {
      ShortParts(parts[1..], seps, size, overlap);
    }
  }

  lemma {:induction false} SumOfLetters(c: char, n: nat)
    ensures Sum(Letters(c, n)) == n
  {
    if n > 0 {
      assert Letters(c, n)[1..] == Letters(c, n - 1);
      SumOfLetters(c, n - 1);
    }
  }

  /** Letters are packed into one chunk while there is room. */
  lemma {:induction false} PackLetters(items: seq<string>, c: char, n: nat, k: nat, size: int, overlap: int)
    requires k <= n <= |items| && items[..n] == Letters(c, n) && n < size
    ensures MergeFrom(items, 0, [], size, overlap) == MergeFrom(items, k, Letters(c, k), size, overlap)
  {
    if k == 0 {
      assert Letters(c, 0) == [];
    } else {
      PackLetters(items, c, n, k - 1, size, overlap);
      SumOfLetters(c, k - 1);
      assert items[k - 1] == items[..n][k - 1] == [c];
      assert Letters(c, k - 1) + [items[k - 1]] == Letters(c, k);
    }
  }

  /** The chunks of letters and a last word: the letters are carried over to it, or it still fits. */
  lemma LettersAndWord(c: char, n: nat, m: nat, size: int, overlap: int)
    requires m > 0 && n < size && (n <= overlap || n + m < size)
    ensures var items := Letters(c, n) + [Word(c, m)];
      var chunks := MergeFrom(items, 0, [], size, overlap);
      chunks != [] && |chunks[|chunks| - 1]| == 2 * n + m
  {
    var letters, word := Letters(c, n), Word(c, m);
    var items := letters + [word];
    hide MergeFrom, TailStart, Join, Sum;
    PackLetters(items, c, n, n, size, overlap);
    SumOfLetters(c, n);
    SumAppend(letters, [word]);
    JoinLength(items);
    LastItem(items, n, size, overlap);
    OneItem(word);
  }

  lemma OneItem(word: string)
    ensures Sum([word]) == |word|
  {
  }

  /** The last item joins the others, which are few enough to be carried over if need be. */
  lemma LastItem(items: seq<string>, n: nat, size: int, overlap: int)
    requires |items| == n + 1 && (Sum(items[..n]) <= overlap || Sum(items[..n]) + |items[n]| + 1 <= size)
    ensures var chunks := MergeFrom(items, n, items[..n], size, overlap);
      chunks != [] && chunks[|chunks| - 1] == Join(items, "\n")
  {
    hide Join;
    var current := items[..n];
    assert current + [items[n]] == items && current[0..] == current;
    assert MergeFrom(items, n + 1, items, size, overlap) == [Join(items, "\n")];
  }

  lemma RowChunks(c: char, seps: seq<string>, n: nat, m: nat, size: int, overlap: int)
    requires size > 0 && overlap < size && seps != [] && seps[0] != "" && seps[0][0] != c
    requires 0 < m <= size && 0 < n < size && 2 * n + m > size && (n <= overlap || n + m < size)
    ensures Row(c, seps[0], n, Word(c, m)) != ""
    ensures var chunks := ChunksOf(Row(c, seps[0], n, Word(c, m)), seps, size, overlap);
      chunks != [] && |chunks[|chunks| - 1]| == 2 * n + m
  {
    var parts := Letters(c, n) + [Word(c, m)];
    hide Row, SplitOn, PiecesOfAll, MergeFrom;
    SplitRow(c, seps[0], n, m);
    ShortParts(parts, seps[1..], size, overlap);
    LettersAndWord(c, n, m, size, overlap);
  }

  /** A text that has a chunk as long as a chunk can get. */
  function LongText(sep: string, size: int, overlap: int): string
    requires size > 0 && sep != ""
  {
    var c := if sep[0] == 'a' then 'b' else 'a';
    if overlap <= 0 && size <= 3 then Word(c, size)
    else if LongestChunk(size, overlap) == size + 2 * overlap then Row(c, sep, overlap, Word(c, size))
    else Row(c, sep, size - 2, Word(c, 1))
  }

  lemma ReachesLongest(seps: seq<string>, size: int, overlap: int)
    requires size > 0 && overlap < size && seps != [] && seps[0] != ""
    ensures LongText(seps[0], size, overlap) != ""
    ensures var chunks := ChunksOf(LongText(seps[0], size, overlap), seps, size, overlap);
      chunks != [] && |chunks[|chunks| - 1]| == LongestChunk(size, overlap)
  {
    hide ChunksOf, Row;
    var c := if seps[0][0] == 'a' then 'b' else 'a';
    if overlap <= 0 && size <= 3 {
      WordChunk(c, seps, size, overlap);
    } else if LongestChunk(size, overlap) == size + 2 * overlap {
      RowChunks(c, seps, overlap, size, size, overlap);
    } else {
      RowChunks(c, seps, size - 2, 1, size, overlap);
    }
  }

  lemma WordChunk(c: char, seps: seq<string>, size: int, overlap: int)
    requires size > 0 && overlap < size
    ensures ChunksOf(Word(c, size), seps, size, overlap) == [Word(c, size)]
  {
  }

  /** The size that was asked for does not bound the chunks: newlines and carried items come on top. */
  method ChunkLongerThanSize(size: int, overlap: int) returns (text: string, chunk: string)
    requires size > 0 && overlap < size && (overlap > 0 || size > 3)
    ensures |chunk| == LongestChunk(size, overlap) > size
  {
    var seps := Separators([]);
    assert seps[0] == "\n\n" && LongestChunk(size, overlap) > size;
    hide *;
    text := LongText(seps[0], size, overlap);
    ReachesLongest(seps, size, overlap);
    var r := SplitText(text, size, overlap, []);
    chunk := r.chunks[|r.chunks| - 1];
  }

  /** Every chunk of every text keeps to a bound exactly when the longest one does. */
  lemma LongestChunkExactly(seps: seq<string>, size: int, overlap: int, bound: int)
    requires size > 0 && overlap < size && "" in seps && seps[0] != ""
    ensures (forall text: string :: Bounded(ChunksOf(text, seps, size, overlap), bound))
       <==> LongestChunk(size, overlap) <= bound
  {
    hide ChunksOf;
    if LongestChunk(size, overlap) <= bound {
      forall text: string ensures Bounded(ChunksOf(text, seps, size, overlap), bound) {
        ChunksKeepTo(text, seps, size, overlap);
      }
    } else {
      ReachesLongest(seps, size, overlap);
      var text := LongText(seps[0], size, overlap);
      assert !Bounded(ChunksOf(text, seps, size, overlap), bound);
    }
  }

  lemma ChunksKeepTo(text: string, seps: seq<string>, size: int, overlap: int)
    requires size > 0 && overlap < size && "" in seps
    ensures Bounded(ChunksOf(text, seps, size, overlap), LongestChunk(size, overlap))
  {
    hide Pieces, MergeFrom;
    PiecesAreShort(text, seps, size, overlap);
    ChunkLengths(Pieces(text, seps, size, overlap), size, overlap);
  }

  // Windows only.

  lemma {:induction false} ChainSum(items: seq<string>, size: int, step: int, a: nat, b: nat)
    requires Chain(items, size, step) && NotEmpty(items) && step > 0 && a < b <= |items|
    ensures forall i :: a <= i < b ==> |items[i]| <= Sum(items[a..b])
    ensures b - a >= 2 && Sum(items[a..b]) < size ==> |items[a]| >= step + 1 && Sum(items[a..b]) >= step + 2
    ensures b - a >= 3 && Sum(items[a..b]) < size ==> Sum(items[a..b]) >= 3 * step + 3
    decreases b - a
  {
    assert items[a..b] == [items[a]] + items[a + 1..b];
    if a + 1 < b {
      ChainSum(items, size, step, a + 1, b);
    }
  }

  lemma LastTwo(items: seq<string>, a: nat, b: nat)
    requires a + 2 <= b <= |items|
    ensures Sum(items[a..b]) >= |items[b - 2]| + |items[b - 1]|
  {
    UpTo(items, a, b - 1);
    UpTo(items, a, b - 2);
  }

  /** One window carried over, and the next: more are too long. */
  lemma CarriedWindow(items: seq<string>, size: int, overlap: int, f: nat, start: nat)
    requires 0 < size && overlap < size && 3 * overlap < 2 * size
    requires Chain(items, size, size - overlap) && NotEmpty(items)
    requires f < start < |items| && Sum(items[f..start]) <= NotNegative(overlap)
    ensures f + 1 == start && Sum(items[f..start + 1]) + 1 <= size
  {
    hide Sum;
    ChainSum(items, size, size - overlap, f, start);
    UpTo(items, f, start);
    if f + 2 <= start {
      LastTwo(items, f, start);
    } else {
      UpTo(items, f, f);
      assert items[f..f] == [] && Sum([]) == 0 by { SumOfNone(); }
    }
  }

  lemma SumOfNone()
    ensures Sum([]) == 0
  {
  }

  lemma WindowChunkLength(items: seq<string>, chunks: seq<string>, groups: seq<Span>, size: int, overlap: int,
                          most: nat, i: nat)
    requires 0 < size && overlap < size && 3 * overlap < 2 * size
    requires Grouping(items, chunks, groups, size, overlap, most) && i < |chunks|
    requires NotEmpty(items) && Bounded(items, size) && Chain(items, size, size - overlap)
    ensures |chunks[i]| <= size
  {
    hide *;
    GroupHolds(items, chunks, groups, size, overlap, most, i);
    JoinedWindows(items, groups[i].from, FirstNew(groups, i), groups[i].to, size, overlap);
  }

  lemma JoinedWindows(items: seq<string>, f: nat, start: nat, to: nat, size: int, overlap: int)
    requires 0 < size && overlap < size && 3 * overlap < 2 * size
    requires f <= start < to <= |items| && NotEmpty(items) && Bounded(items, size) && Chain(items, size, size - overlap)
    requires Sum(items[f..start]) <= NotNegative(overlap) && Packed(items, f, start, to, size)
    ensures |Join(items[f..to], "\n")| <= size
  {
    hide *;
    RunLength(items, f, to);
    if to > start + 1 {
      PackedRun(items, f, start, to, size);
      ChainSum(items, size, size - overlap, f, to);
    } else if f < start {
      CarriedWindow(items, size, overlap, f, start);
    } else {
      UpTo(items, start, start);
      assert items[start..start] == [];
      SumOfNone();
      ItemLength(items, size, start);
    }
  }

  lemma WindowChunksFit(text: string, seps: seq<string>, size: int, overlap: int)
    requires 0 < size && overlap < size && 3 * overlap < 2 * size && seps != [] && seps[0] == ""
    ensures Bounded(ChunksOf(text, seps, size, overlap), size)
  {
    hide WindowsFrom, MergeFrom, Grouping, Chain, NotEmpty;
    if |text| > size {
      var items := WindowsFrom(text, size, overlap, 0);
      WindowChain(text, size, overlap, 0);
      var groups := MergeIsGreedy(items, size, overlap, size) by { NotEmptyItems(items, size); }
      var chunks := MergeFrom(items, 0, [], size, overlap);
      forall i | 0 <= i < |chunks| ensures |chunks[i]| <= size {
        WindowChunkLength(items, chunks, groups, size, overlap, size + NotNegative(overlap), i);
      }
    }
  }

  lemma NotEmptyItems(items: seq<string>, size: int)
    requires NotEmpty(items) && Bounded(items, size)
    ensures forall i :: 0 <= i < |items| ==> items[i] != "" && |items[i]| <= size
  {
  }

  /** The group that the k-th item is new in. */
  lemma GroupOf(items: seq<string>, chunks: seq<string>, groups: seq<Span>, size: int, overlap: int, most: nat, k: nat)
    returns (i: nat)
    requires Grouping(items, chunks, groups, size, overlap, most) && k < |items|
    ensures i < |groups| == |chunks| && FirstNew(groups, i) <= k < groups[i].to
  {
    i := 0;
    while groups[i].to <= k
      invariant i < |groups| && FirstNew(groups, i) <= k
      decreases |groups| - i
    {
      i := i + 1;
    }
  }

  /** A short window is carried over to the next one if both do not fit. */
  lemma WindowOverrun(items: seq<string>, chunks: seq<string>, groups: seq<Span>, size: int, overlap: int, most: nat,
                      k: nat) returns (i: nat)
    requires Grouping(items, chunks, groups, size, overlap, most) && NotEmpty(items) && k + 1 < |items|
    requires |items[k]| <= overlap && |items[k]| + |items[k + 1]| + 1 > size
    ensures i < |chunks| && |chunks[i]| > size
  {
    hide *;
    i := GroupOf(items, chunks, groups, size, overlap, most, k + 1);
    GroupHolds(items, chunks, groups, size, overlap, most, i);
    if FirstNew(groups, i) == k + 1 {
      CarriedOver(items, chunks, groups, size, overlap, most, i);
    }
    var f, to := groups[i].from, groups[i].to;
    SumOfPart(items, f, k, to);
    RunLength(items, f, to);
  }

  lemma CarriedOver(items: seq<string>, chunks: seq<string>, groups: seq<Span>, size: int, overlap: int, most: nat,
                    i: nat)
    requires Grouping(items, chunks, groups, size, overlap, most) && i < |groups| == |chunks|
    requires 0 < FirstNew(groups, i) <= |items| && |items[FirstNew(groups, i) - 1]| <= overlap
    ensures groups[i].from < FirstNew(groups, i)
  {
    assert 0 < i && GroupsMeet(items, groups[i - 1], groups[i], overlap);
    assert GroupOk(items, chunks[i - 1], groups[i - 1], |items|, most);
    LastItemIsShared(items, groups[i - 1], groups[i], overlap);
  }

  lemma LastItemIsShared(items: seq<string>, g: Span, h: Span, overlap: int)
    requires GroupsMeet(items, g, h, overlap) && g.from < g.to && |items[g.to - 1]| <= overlap
    ensures h.from < g.to
  {
    assert items[g.to - 1..g.to] == [items[g.to - 1]];
    OneItem(items[g.to - 1]);
  }

  /** Two neighbours in a run. */
  lemma SumOfPart(items: seq<string>, f: nat, k: nat, to: nat)
    requires f <= k && k + 2 <= to <= |items|
    ensures Sum(items[f..to]) >= |items[k]| + |items[k + 1]|
  {
    hide Sum;
    LastTwo(items, f, k + 2);
    assert items[f..to] == items[f..k + 2] + items[k + 2..to];
    SumAppend(items[f..k + 2], items[k + 2..to]);
  }

  /** Two full windows, one as long as the overlap, and the rest. */
  lemma FourWindows(text: string, size: int, overlap: int)
    requires 0 < size && overlap < size && 3 * overlap >= 2 * size && |text| == 2 * size - overlap
    ensures var items := WindowsFrom(text, size, overlap, 0);
      |items| > 3 && |items[2]| == overlap && |items[3]| == 2 * overlap - size
  {
    var step := size - overlap;
    WindowsUnfold(text, size, overlap, 0);
    WindowsUnfold(text, size, overlap, step);
    WindowsUnfold(text, size, overlap, step + step);
    WindowsUnfold(text, size, overlap, step + step + step);
  }

  lemma LongWindowChunk(seps: seq<string>, size: int, overlap: int) returns (text: string, i: nat)
    requires 0 < size && overlap < size && 3 * overlap >= 2 * size && seps != [] && seps[0] == ""
    ensures i < |ChunksOf(text, seps, size, overlap)| && |ChunksOf(text, seps, size, overlap)[i]| > size
  {
    hide WindowsFrom, MergeFrom, Grouping, Chain, NotEmpty;
    text := Word('a', 2 * size - overlap);
    var items := WindowsFrom(text, size, overlap, 0);
    WindowChain(text, size, overlap, 0);
    FourWindows(text, size, overlap);
    NotEmptyItems(items, size);
    var groups := MergeIsGreedy(items, size, overlap, size);
    i := WindowOverrun(items, MergeFrom(items, 0, [], size, overlap), groups, size, overlap,
                       size + NotNegative(overlap), 2);
  }

  /**
    With the empty separator among them, every chunk of every text is at most as long as was asked for
    exactly when: nothing overlaps and the size is at most 3, or, if text is only cut into windows, the
    overlap is less than two thirds of the size.
   */
  lemma SizeKeptExactly(seps: seq<string>, size: int, overlap: int)
    requires size > 0 && overlap < size && "" in seps
    ensures (forall text: string :: Bounded(ChunksOf(text, seps, size, overlap), size))
       <==> if seps[0] == "" then 3 * overlap < 2 * size else overlap <= 0 && size <= 3
  {
    hide ChunksOf;
    if seps[0] != "" {
      LongestChunkExactly(seps, size, overlap, size);
    } else if 3 * overlap < 2 * size {
      forall text: string ensures Bounded(ChunksOf(text, seps, size, overlap), size) {
        WindowChunksFit(text, seps, size, overlap);
      }
    } else {
      var text, i := LongWindowChunk(seps, size, overlap);
      assert !Bounded(ChunksOf(text, seps, size, overlap), size);
    }
  }

  ghost predicate StartWithOther(seps: seq<string>, c: char) {
    forall i :: 0 <= i < |seps| ==> seps[i] != "" && seps[i][0] != c
  }

  /** Separators that always begin with one of few characters leave other text in one piece. */
  lemma {:induction false} OnePiece(seps: seq<string>, size: int, overlap: int, c: char, n: nat)
    requires size > 0 && overlap < size && n > size && StartWithOther(seps, c)
    ensures Pieces(Word(c, n), seps, size, overlap) == [Word(c, n)]
    decreases seps
  {
    if seps != [] {
      var text := Word(c, n);
      NoSeparatorInside(text, seps[0], c);
      OnePiece(seps[1..], size, overlap, c, n);
      assert PiecesOfAll([text], seps[1..], size, overlap) == [text] + PiecesOfAll([], seps[1..], size, overlap);
    }
  }

  /** Without the empty separator nothing bounds a chunk, if some character begins no separator. */
  lemma NoBoundWithoutWindows(seps: seq<string>, size: int, overlap: int, c: char, n: nat)
    requires size > 0 && overlap < size && n > size && StartWithOther(seps, c)
    ensures ChunksOf(Word(c, n), seps, size, overlap) == [Word(c, n)]
  {
    var text := Word(c, n);
    OnePiece(seps, size, overlap, c, n);
    hide Pieces;
    assert [] + [text] == [text];
    assert MergeFrom([text], 1, [text], size, overlap) == [Join([text], "\n")];
  }
}
