/**
 * The note card's name handling: `name.replace(/\.[^/.]+$/, "")`, which
 * removes a final extension (a dot followed by one or more characters
 * that are neither '/' nor '.', up to the end of the name). The stripped
 * name is both the note's route id and the card's heading.
 */
module NoteName {
  import opened JsText

  /**
   * The regular expression `\.[^/.]+$` matches `name` starting at index i:
   * a dot, at least one more character, and no '.' or '/' after the dot.
   */
  ghost function ExtensionAt(name: string, i: int): (b: bool)
    ensures b ==> 0 <= i < |name| - 1 && name[i] == '.'
    ensures b ==> forall j | i < j < |name| :: name[j] != '.'
  {
    && 0 <= i
    && i + 1 < |name|
    && name[i] == '.'
    && forall j | i < j < |name| :: name[j] != '.' && name[j] != '/'
  }

  /**
   * Scans name[..k] from the right, over characters that are neither '.'
   * nor '/', for the dot that starts an extension.
   */
  function DotBefore(name: string, k: nat): (d: Option<nat>)
    requires k <= |name|
    ensures d.Some? ==> d.value + 1 < |name| && name[d.value] == '.'
  {
    if k == 0 then None
    else if name[k - 1] == '/' then None
    else if name[k - 1] == '.' then (if k < |name| then Some(k - 1) else None)
    else DotBefore(name, k - 1)
  }

  /** The index of the dot the regular expression matches at, if it matches. */
  function ExtensionDot(name: string): (d: Option<nat>)
    ensures d.Some? ==> d.value < |name| && ExtensionAt(name, d.value)
    ensures d.None? ==> forall i :: !ExtensionAt(name, i)
  {
    ScanIsMatch(name);
    DotBefore(name, |name|)
  }

  /** The scan over the whole name finds a match when it answers, and answers when there is one. */
  lemma ScanIsMatch(name: string)
    ensures DotBefore(name, |name|).Some? ==> ExtensionAt(name, DotBefore(name, |name|).value)
    ensures DotBefore(name, |name|).None? ==> forall i :: !ExtensionAt(name, i)
  {
    match DotBefore(name, |name|)
    case Some(d) =>
      DotBeforeMatches(name, |name|, d);
    case None =>
      forall i ensures !ExtensionAt(name, i) {
        DotBeforeMatches(name, |name|, i);
      }
  }

  lemma {:induction false} DotBeforeMatches(name: string, k: nat, i: int)
    requires k <= |name|
    requires forall j | k <= j < |name| :: name[j] != '.' && name[j] != '/'
    ensures DotBefore(name, k) == Some(i) <==> ExtensionAt(name, i)
  {
    if k > 0 && name[k - 1] != '/' && name[k - 1] != '.' {
      DotBeforeMatches(name, k - 1, i);
    }
  }

  /**
   * The scan finds exactly the position where the regular expression
   * matches; there is at most one such position.
   */
  lemma ExtensionDotIsMatch(name: string, i: int)
    ensures ExtensionDot(name) == Some(i) <==> ExtensionAt(name, i)
    ensures ExtensionDot(name) == None <==> forall j :: !ExtensionAt(name, j)
  {
    DotBeforeMatches(name, |name|, i);
    if ExtensionDot(name) == None {
      forall j ensures !ExtensionAt(name, j) {
        DotBeforeMatches(name, |name|, j);
      }
    } else {
      DotBeforeMatches(name, |name|, ExtensionDot(name).value);
    }
  }

  /** `name.replace(/\.[^/.]+$/, "")` */
  function StripExtension(name: string): (r: string)
    ensures r <= name
    ensures |r| < |name| <==> ExtensionDot(name).Some?
    ensures |r| < |name| ==> name[|r|] == '.'
  {
    match ExtensionDot(name)
    case None => name
    case Some(i) => name[..i]
  }

  /**
   * What the replacement removes is exactly the matched extension: the
   * result is shorter iff the pattern matches, and then the match starts
   * right where the result ends.
   */
  lemma StripExtensionRemovesMatch(name: string)
    ensures StripExtension(name) <= name
    ensures |StripExtension(name)| < |name| <==> exists i :: ExtensionAt(name, i)
    ensures |StripExtension(name)| < |name| ==> ExtensionAt(name, |StripExtension(name)|)
    ensures |StripExtension(name)| == |name| ==> forall i :: !ExtensionAt(name, i)
  {
    var r := StripExtension(name);
    ExtensionDotIsMatch(name, |r|);
    if |r| < |name| {
      assert ExtensionAt(name, |r|);
    }
  }

  /** A name without any dot is left unchanged. */
  lemma {:induction false} NoDotUnchanged(name: string)
    requires forall j | 0 <= j < |name| :: name[j] != '.'
    ensures StripExtension(name) == name
  {
    assert forall j :: !ExtensionAt(name, j);
    ExtensionDotIsMatch(name, 0);
  }

  /** Only the last extension goes, so stripping twice is not stripping once. */
  lemma StripIsNotIdempotent()
    ensures StripExtension("a.tar.gz") == "a.tar"
    ensures StripExtension(StripExtension("a.tar.gz")) == "a"
  {
    assert ExtensionAt("a.tar.gz", 5);
    ExtensionDotIsMatch("a.tar.gz", 5);
    assert "a.tar.gz"[..5] == "a.tar";
    assert ExtensionAt("a.tar", 1);
    ExtensionDotIsMatch("a.tar", 1);
    assert "a.tar"[..1] == "a";
  }

  /**
   * What a note card derives from the note's file name: the id it routes
   * to, the heading it shows and the hover title (the full name).
   */
  datatype Card = Card(noteId: string, heading: string, title: string)

  /** The card computes the id and the heading with the same replacement. */
  function NoteCard(name: string): (c: Card)
    ensures c.heading == c.noteId
    ensures c.title == name
    ensures c.noteId <= name
    ensures c.noteId == StripExtension(name)
  {
    Card(StripExtension(name), StripExtension(name), name)
  }
}
