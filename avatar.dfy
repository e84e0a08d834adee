/** The avatar badge: the initials of a display name, taken from the first
    characters of the first two space-separated words. */
module Avatar {
  import opened Seqs
  import opened Text

  /** One word's contribution: its first character upper-cased, nothing for
      an empty word (`s[0]?.toUpperCase()` is undefined, which joins as ""). */
  function InitialOf(w: string): (r: string)
    ensures w == [] ==> r == []
    ensures w != [] ==> r == [UpperChar(w[0])]
  {
    if w == [] then [] else [UpperChar(w[0])]
  }

  /** The contributions of a sequence of words, joined with no separator:
      at most one character per word, and no lower-case ASCII letter. */
  function JoinInitials(words: seq<string>): (r: string)
    ensures |r| <= |words|
    ensures forall k :: 0 <= k < |r| ==> !('a' <= r[k] <= 'z')
  {
    if words == [] then [] else InitialOf(words[0]) + JoinInitials(words[1..])
  }

  /** The text the badge splits: the name, or "?" when it is missing or empty. */
  function Shown(name: Option<string>): string
  {
    match name
    case Some(n) => if n == "" then "?" else n
    case None => "?"
  }

  /** `(name || "?").split(" ").map(first upper-cased).slice(0, 2).join("")`. */
  function Initials(name: Option<string>): (r: string)
    ensures |r| <= 2
    ensures forall k :: 0 <= k < |r| ==> !('a' <= r[k] <= 'z')
  {
    var words := Split(Shown(name), ' ');
    JoinInitials(if |words| <= 2 then words else words[..2])
  }

  /** A missing or empty name shows "?". */
  lemma MissingName(name: Option<string>)
    requires name.None? || name == Some("")
    ensures Initials(name) == "?"
  {
    assert "?"[1..] == [];
    assert Split([], ' ') == [""];
    assert Split("?", ' ') == [['?'] + ""] + [];
  }

  /** The initials are the upper-cased first characters of the first two
      words exactly; a third word and beyond never contribute, and an empty
      word contributes nothing but still takes its slot. */
  lemma FirstTwoWords(n: string)
    requires n != ""
    ensures var words := Split(n, ' ');
      Initials(Some(n)) == InitialOf(words[0]) + (if |words| >= 2 then InitialOf(words[1]) else [])
  {
    var words := Split(n, ' ');
    var firstTwo := if |words| <= 2 then words else words[..2];
    assert JoinInitials(firstTwo[1..]) == if |words| >= 2 then InitialOf(words[1]) else [] by {
      if |words| >= 2 {
        assert firstTwo[1..][1..] == [];
      }
    }
  }

  /** A leading space makes an empty first word: only the first real word
      contributes, whatever follows it. */
  lemma LeadingSpaceUsesASlot(rest: string)
    ensures Initials(Some(" " + rest)) == InitialOf(Split(rest, ' ')[0])
  {
    var n := " " + rest;
    assert n[1..] == rest;
    assert Split(n, ' ') == [""] + Split(rest, ' ');
    FirstTwoWords(n);
  }
}
