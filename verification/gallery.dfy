/** A lookbook gallery is stored as one comma-separated string of image URLs.
    Both the server and the browser read it the same way: split on `,` and
    drop the pieces that are empty or whitespace only (kept pieces are NOT
    trimmed). */
module Gallery {
  import opened Text

  const Comma: char := ','

  /** `url.trim()` is truthy: the piece is kept as a gallery entry. */
  predicate IsEntry(url: string) {
    !IsBlank(url)
  }

  /** `s.split(',').filter(url => url.trim())`. */
  function Entries(s: string): (r: seq<string>)
    ensures forall i :: 0 <= i < |r| ==> IsEntry(r[i]) && Comma !in r[i]
    ensures forall i :: 0 <= i < |r| ==> r[i] in Split(s, Comma)
  {
    SplitPiecesHaveNoSeparator(s, Comma);
    var r := Filter(Split(s, Comma), IsEntry);
    assert forall i :: 0 <= i < |r| ==> r[i] in Split(s, Comma);
    r
  }

  /** Joining entries with commas and reading them back is the identity. */
  lemma EntriesOfJoin(urls: seq<string>)
    requires forall i :: 0 <= i < |urls| ==> IsEntry(urls[i]) && Comma !in urls[i]
    ensures Entries(Join(urls, Comma)) == urls
  {
    if |urls| == 0 {
      assert Split("", Comma) == [""];
      assert IsBlank("");
    } else {
      SplitJoin(urls, Comma);
      FilterKeepsAll(urls, IsEntry);
    }
  }

  /** Appending with a comma appends the entries. */
  lemma EntriesAppend(a: string, b: string)
    ensures Entries(a + [Comma] + b) == Entries(a) + Entries(b)
  {
    SplitAppend(a, b, Comma);
    FilterAppend(Split(a, Comma), Split(b, Comma), IsEntry);
  }

  /** The empty gallery string has no entries. */
  lemma EntriesOfEmpty()
    ensures Entries("") == []
  {
    assert Split("", Comma) == [""];
    assert IsBlank("");
  }
}
