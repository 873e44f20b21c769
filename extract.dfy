/**
 * `extract_urls`: the pasted text is cut at runs of whitespace and commas,
 * each piece is cleaned of quotes and brackets and canonicalised, and the
 * canonical URLs are kept once each, in the order they first appear.
 */
module Extract {
  import opened Text
  import opened Urls

  /**
   * `re.split(r"[\s,]+", text)`: the pieces between maximal separator runs,
   * with an empty first or last piece when the text starts or ends with one.
   */
  function Pieces(text: string): (pieces: seq<string>)
    ensures |pieces| >= 1
    decreases |text|
  {
    var i := IndexIn(text, SpaceOrComma);
    if i == |text| then [text]
    else
      var rest := LStrip(text[i..], SpaceOrComma);
      LStripShorter(text[i..], SpaceOrComma);
      [text[..i]] + Pieces(rest)
  }

  /** `piece.strip().strip('"').strip("'").strip("<>").strip("[](){}")`. */
  function Clean(piece: string): string {
    StripEach(piece, CleanClasses)
  }

  const CleanClasses: seq<CharClass> :=
    [Whitespace, AnyOf({'"'}), AnyOf({'\''}), AnyOf({'<', '>'}), AnyOf({'[', ']', '(', ')', '{', '}'})]

  /** What one piece contributes: its canonical URL, or "" when it is to be skipped. */
  function Candidate(piece: string): (r: string)
    ensures r == "" || IsCanonical(r)
  {
    var cleaned := Clean(piece);
    if cleaned == "" then "" else NormalizeVideoUrl(cleaned)
  }

  /** What each piece contributes, piece by piece. */
  function Contributions(pieces: seq<string>): (us: seq<string>)
    ensures |us| == |pieces|
  {
    seq(|pieces|, k requires 0 <= k < |pieces| => Candidate(pieces[k]))
  }

  /** The canonical URLs of the pieces, in order, repeats included. */
  function Candidates(pieces: seq<string>): seq<string> {
    NonEmpty(Contributions(pieces))
  }

  lemma CandidateCanonical(piece: string)
    ensures Candidate(piece) == "" || IsCanonical(Candidate(piece))
  {
  }

  /** Every candidate is a canonical watch URL. */
  lemma CandidatesCanonical(pieces: seq<string>)
    ensures forall u :: u in Candidates(pieces) ==> IsCanonical(u)
  {
    var us := Contributions(pieces);
    NonEmptyElements(us);
    forall u | u in Candidates(pieces)
      ensures IsCanonical(u)
    {
      var k :| 0 <= k < |us| && us[k] == u;
      CandidateCanonical(pieces[k]);
    }
  }

  lemma DedupSnoc(xs: seq<string>, k: nat)
    requires k < |xs|
    ensures Dedup(xs[..k + 1]) == if xs[k] in Dedup(xs[..k]) then Dedup(xs[..k]) else Dedup(xs[..k]) + [xs[k]]
  {
    assert xs[..k + 1][..k] == xs[..k];
  }

  /** The elements of `xs`, each kept at its first occurrence only. */
  function Dedup(xs: seq<string>): seq<string> {
    if xs == [] then []
    else
      var init := Dedup(xs[..|xs| - 1]);
      if xs[|xs| - 1] in init then init else init + [xs[|xs| - 1]]
  }

  predicate Distinct(xs: seq<string>) {
    forall i, j :: 0 <= i < j < |xs| ==> xs[i] != xs[j]
  }

  /** The position at which `x` first occurs in `xs`. */
  function FirstIndex(xs: seq<string>, x: string): (r: nat)
    requires x in xs
    ensures r < |xs| && xs[r] == x
    ensures forall k :: 0 <= k < r ==> xs[k] != x
  {
    if xs[0] == x then 0 else 1 + FirstIndex(xs[1..], x)
  }

  /** Deduplication keeps exactly the elements that occur. */
  lemma {:induction false} DedupSameElements(xs: seq<string>)
    ensures forall x :: x in Dedup(xs) <==> x in xs
  {
    if xs != [] {
      var init := xs[..|xs| - 1];
      DedupSameElements(init);
      assert xs == init + [xs[|xs| - 1]];
    }
  }

  /** No element is kept twice. */
  lemma {:induction false} DedupDistinct(xs: seq<string>)
    ensures Distinct(Dedup(xs))
  {
    if xs != [] {
      DedupDistinct(xs[..|xs| - 1]);
    }
  }

  /** The kept elements appear in the order of their first occurrences. */
  lemma {:induction false} DedupFirstOccurrenceOrder(xs: seq<string>)
    ensures forall x :: x in Dedup(xs) ==> x in xs
    ensures forall i, j :: 0 <= i < j < |Dedup(xs)| ==> FirstIndex(xs, Dedup(xs)[i]) < FirstIndex(xs, Dedup(xs)[j])
  {
    DedupSameElements(xs);
    if xs != [] {
      var init := xs[..|xs| - 1];
      var d := Dedup(init);
      var last := xs[|xs| - 1];
      DedupFirstOccurrenceOrder(init);
      DedupSameElements(init);
      var e := Dedup(xs);
      assert e == if last in d then d else d + [last];
      forall i, j | 0 <= i < j < |e|
        ensures FirstIndex(xs, e[i]) < FirstIndex(xs, e[j])
      {
        FirstIndexInit(xs, e[i]);
        if j < |d| {
          FirstIndexInit(xs, e[j]);
        } else {
          assert e[j] == last && last !in init;
        }
      }
    }
  }

  /** An element of all but the last position is first found where it is first found there. */
  lemma FirstIndexInit(xs: seq<string>, x: string)
    requires xs != [] && x in xs[..|xs| - 1]
    ensures x in xs && FirstIndex(xs, x) == FirstIndex(xs[..|xs| - 1], x)
  {
    var init := xs[..|xs| - 1];
    var r := FirstIndex(init, x);
    assert xs[r] == init[r];
    assert forall k :: 0 <= k < r ==> xs[k] == init[k];
    FirstIndexUnique(xs, x, r);
  }

  /** The first position is the only one with `x` there and nowhere before. */
  lemma FirstIndexUnique(xs: seq<string>, x: string, r: nat)
    requires r < |xs| && xs[r] == x
    requires forall k :: 0 <= k < r ==> xs[k] != x
    ensures FirstIndex(xs, x) == r
  {
  }

  /** One step of the first loop: an empty cleaned piece is skipped, any other is canonicalised. */
  method PieceCandidate(piece: string) returns (normalized: string)
    ensures normalized == Candidate(piece)
  {
    var cleaned := Clean(piece);
    if cleaned == "" {
      return "";
    }
    normalized := NormalizeVideoUrl(cleaned);
  }

  /** The first loop of `extract_urls`: clean and canonicalise each piece, keeping the URLs found. */
  method CollectCandidates(pieces: seq<string>) returns (candidates: seq<string>)
    ensures candidates == Candidates(pieces)
  {
    ghost var contributions := Contributions(pieces);
    candidates := [];
    var i := 0;
    while i < |pieces|
      invariant 0 <= i <= |pieces|
      invariant candidates == NonEmpty(contributions[..i])
    {
      var normalized := PieceCandidate(pieces[i]);
      NonEmptyPrefix(contributions, i);
      if normalized != "" {
        candidates := candidates + [normalized];
      }
      i := i + 1;
    }
    assert contributions[..|pieces|] == contributions;
  }

  /** The second loop of `extract_urls`: keep each URL the first time it is seen. */
  method Deduplicate(candidates: seq<string>) returns (urls: seq<string>)
    ensures urls == Dedup(candidates)
  {
    var seen: set<string> := {};
    urls := [];
    var k := 0;
    while k < |candidates|
      invariant 0 <= k <= |candidates|
      invariant urls == Dedup(candidates[..k])
      invariant forall u :: u in seen <==> u in urls
    {
      DedupSnoc(candidates, k);
      var url := candidates[k];
      if url !in seen {
        seen := seen + {url};
        urls := urls + [url];
      }
      k := k + 1;
    }
    assert candidates[..|candidates|] == candidates;
  }

  /** `extract_urls(text)`: the distinct canonical URLs of the pasted text, in order of first appearance. */
  method ExtractUrls(text: string) returns (urls: seq<string>)
    ensures urls == Dedup(Candidates(Pieces(text)))
    ensures forall u :: u in urls ==> IsCanonical(u)
    ensures Distinct(urls)
  {
    var pieces := Pieces(text);
    var candidates := CollectCandidates(pieces);
    urls := Deduplicate(candidates);
    DedupSameElements(candidates);
    DedupDistinct(candidates);
    CandidatesCanonical(pieces);
  }
}
