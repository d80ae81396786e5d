/**
 * `SpeakerRow`: the initials drawn in the avatar placeholder, the first
 * character of every space-separated piece of the name, joined without a
 * separator. An empty piece has no first character (`undefined`), which joins
 * as the empty string.
 */
module SpeakerRow {
  import opened Strings
  import opened Seqs

  /** `n[0]` as it joins: the first character, or nothing for an empty piece. */
  function FirstChar(piece: string): (r: string)
    ensures |r| <= 1
    ensures piece != "" ==> r == [piece[0]]
  {
    if piece == "" then "" else [piece[0]]
  }

  /** `pieces.join('')`. */
  function Concat(pieces: seq<string>): string {
    if pieces == [] then "" else Concat(pieces[..|pieces| - 1]) + pieces[|pieces| - 1]
  }

  /** `name.split(' ').map(n => n[0]).join('')`. */
  function Initials(name: string): string {
    Concat(Map(Split(name, ' '), FirstChar))
  }

  function NonEmpty(piece: string): bool { piece != "" }

  /** The first character of a piece known to be non-empty. */
  function Head(piece: string): char { if piece == "" then ' ' else piece[0] }

  lemma {:induction false} ConcatFirstChars(pieces: seq<string>)
    ensures Concat(Map(pieces, FirstChar)) == Map(Filter(pieces, NonEmpty), Head)
    decreases |pieces|
  {
    if pieces != [] {
      var init := pieces[..|pieces| - 1];
      var last := pieces[|pieces| - 1];
      assert pieces == init + [last];
      ConcatFirstChars(init);
      MapSnoc(init, last, FirstChar);
      assert Concat(Map(pieces, FirstChar)) == Concat(Map(init, FirstChar)) + FirstChar(last) by {
        assert Map(pieces, FirstChar)[..|pieces| - 1] == Map(init, FirstChar);
      }
      if last != "" {
        MapSnoc(Filter(init, NonEmpty), last, Head);
      }
    }
  }

  /**
   * The initials are the first characters of the non-empty pieces, in order:
   * one per non-empty piece, so empty pieces from leading, trailing or
   * repeated spaces add nothing.
   */
  lemma InitialsMeaning(name: string)
    ensures var kept := Filter(Split(name, ' '), NonEmpty);
      |Initials(name)| == |kept| == Count(Split(name, ' '), NonEmpty)
      && forall i :: 0 <= i < |kept| ==> Initials(name)[i] == kept[i][0]
  {
    ConcatFirstChars(Split(name, ' '));
  }

  /** Every initial is a character of the name other than a space: case is kept. */
  lemma InitialsFromName(name: string)
    ensures forall i :: 0 <= i < |Initials(name)| ==> Initials(name)[i] in name && Initials(name)[i] != ' '
  {
    forall i | 0 <= i < |Initials(name)| ensures Initials(name)[i] in name && Initials(name)[i] != ' ' {
      InitialInName(name, i);
    }
  }

  lemma InitialInName(name: string, i: nat)
    requires i < |Initials(name)|
    ensures Initials(name)[i] in name && Initials(name)[i] != ' '
  {
    var pieces := Split(name, ' ');
    var kept := Filter(pieces, NonEmpty);
    InitialsMeaning(name);
    assert kept[i] in pieces && NonEmpty(kept[i]);
    var k :| 0 <= k < |pieces| && pieces[k] == kept[i];
    SplitPiecesAvoidSeparator(name, ' ');
    assert ' ' !in pieces[k];
    PieceCharInString(name, ' ', k, 0);
  }

  /** A character of a piece of the split is a character of the string. */
  lemma {:induction false} PieceCharInString(s: string, sep: char, k: nat, j: nat)
    requires k < |Split(s, sep)| && j < |Split(s, sep)[k]|
    ensures Split(s, sep)[k][j] in s
  {
    if s != [] {
      var rest := Split(s[1..], sep);
      if s[0] == sep {
        assert Split(s, sep)[k] == rest[k - 1];
        PieceCharInString(s[1..], sep, k - 1, j);
      } else if k == 0 {
        if j > 0 {
          assert Split(s, sep)[0][j] == rest[0][j - 1];
          PieceCharInString(s[1..], sep, 0, j - 1);
        }
      } else {
        assert Split(s, sep)[k] == rest[k];
        PieceCharInString(s[1..], sep, k, j);
      }
    }
  }

  /** A one-word name gives its first character. */
  lemma SingleWord(name: string)
    requires name != "" && ' ' !in name
    ensures Initials(name) == [name[0]]
  {
    SplitWithoutSeparator(name, ' ');
    assert Map([name], FirstChar) == [FirstChar(name)];
    assert Concat([[name[0]]]) == Concat([]) + [name[0]];
  }
}
