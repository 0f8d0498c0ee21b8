/**
 * The comma-separated tag input shared by the playlist form and the playlist
 * filter: `input.split(',').map(tag => tag.trim()).filter(tag => tag !== '')`,
 * and the `tags.join(', ')` that turns stored tags back into input text.
 */
module Tags {
  import opened Text

  /** A tag the parser can produce: non-empty, trimmed, without a comma. */
  predicate WellFormedTag(t: string) {
    t != [] && Trimmed(t) && ',' !in t
  }

  /** Trim each piece and drop the pieces that become empty, keeping order. */
  function CleanTags(pieces: seq<string>): (tags: seq<string>)
    ensures |tags| <= |pieces|
    ensures forall k :: 0 <= k < |tags| ==> tags[k] != [] && Trimmed(tags[k])
  {
    if pieces == [] then [] else CleanPiece(pieces[0]) + CleanTags(pieces[1..])
  }

  /** One piece trimmed, or nothing if it trims to the empty string. */
  function CleanPiece(piece: string): seq<string> {
    var t := Trim(piece);
    if t == [] then [] else [t]
  }

  /** Cleaning comma-free pieces gives comma-free tags. */
  lemma {:induction false} CleanTagsNoComma(pieces: seq<string>)
    requires forall k :: 0 <= k < |pieces| ==> ',' !in pieces[k]
    ensures forall k :: 0 <= k < |CleanTags(pieces)| ==> ',' !in CleanTags(pieces)[k]
  {
    if pieces != [] {
      TrimKeepsOut(pieces[0], ',');
      CleanTagsNoComma(pieces[1..]);
    }
  }

  /** The tag list typed as comma-separated text. */
  function ParseTags(input: string): (tags: seq<string>)
    ensures forall k :: 0 <= k < |tags| ==> WellFormedTag(tags[k])
  {
    var pieces := Split(input, ',');
    SplitPiecesNoSep(input, ',');
    CleanTagsNoComma(pieces);
    CleanTags(pieces)
  }

  /** Cleaning distributes over concatenation of the piece lists. */
  lemma {:induction false} CleanTagsConcat(a: seq<string>, b: seq<string>)
    ensures CleanTags(a + b) == CleanTags(a) + CleanTags(b)
  {
    if a != [] {
      CleanTagsConcat(a[1..], b);
      assert (a + b)[1..] == a[1..] + b;
      calc {
        CleanTags(a + b);
        CleanPiece(a[0]) + CleanTags(a[1..] + b);
        CleanPiece(a[0]) + (CleanTags(a[1..]) + CleanTags(b));
        (CleanPiece(a[0]) + CleanTags(a[1..])) + CleanTags(b);
      }
    } else {
      assert a + b == b;
    }
  }

  /**
   * The tags left of a comma come first, then those right of it: parsing keeps
   * the input order and keeps duplicates.
   */
  lemma ParseTagsAround(a: string, b: string)
    ensures ParseTags(a + [','] + b) == ParseTags(a) + ParseTags(b)
  {
    SplitAround(a, ',', b);
    CleanTagsConcat(Split(a, ','), Split(b, ','));
  }

  /** Pieces made only of white space clean to nothing. */
  lemma {:induction false} CleanTagsBlank(pieces: seq<string>)
    requires forall k :: 0 <= k < |pieces| ==> IsBlank(pieces[k])
    ensures CleanTags(pieces) == []
  {
    if pieces != [] {
      CleanTagsBlank(pieces[1..]);
    }
  }

  /** Input made only of commas and white space yields no tags. */
  lemma ParseTagsBlank(input: string)
    requires forall k :: 0 <= k < |input| ==> input[k] == ',' || IsSpace(input[k])
    ensures ParseTags(input) == []
  {
    var pieces := Split(input, ',');
    SplitPiecesNoSep(input, ',');
    forall k | 0 <= k < |pieces| ensures IsBlank(pieces[k]) {
      forall i | 0 <= i < |pieces[k]| ensures IsSpace(pieces[k][i]) {
        SplitChars(input, ',', k, i);
      }
      BlankIffAllSpace(pieces[k]);
    }
    CleanTagsBlank(pieces);
  }

  /** A leading space joins the first piece and is trimmed away again. */
  lemma ParseTagsSpacePrefix(s: string)
    ensures ParseTags([' '] + s) == ParseTags(s)
  {
    var rest := Split(s, ',');
    assert ([' '] + s)[1..] == s;
    assert Split([' '] + s, ',') == [[' '] + rest[0]] + rest[1..];
    TrimSpacePrefix(' ', rest[0]);
    assert rest == [rest[0]] + rest[1..];
  }

  /** A single well-formed tag parses to itself. */
  lemma ParseTagsSingle(t: string)
    requires WellFormedTag(t)
    ensures ParseTags(t) == [t]
  {
    SplitNoSep(t, ',');
    TrimTrimmed(t);
  }

  /**
   * Round trip of the playlist form: the stored tags shown as `tags.join(', ')`
   * parse back to the same list when every tag is well formed.
   */
  lemma {:induction false} ParseTagsJoin(tags: seq<string>)
    requires forall k :: 0 <= k < |tags| ==> WellFormedTag(tags[k])
    ensures ParseTags(Join(tags, ", ")) == tags
  {
    if |tags| == 0 {
    } else if |tags| == 1 {
      ParseTagsSingle(tags[0]);
    } else {
      var rest := Join(tags[1..], ", ");
      assert Join(tags, ", ") == tags[0] + [','] + ([' '] + rest);
      ParseTagsAround(tags[0], [' '] + rest);
      ParseTagsSingle(tags[0]);
      ParseTagsSpacePrefix(rest);
      ParseTagsJoin(tags[1..]);
      assert tags == [tags[0]] + tags[1..];
    }
  }

  /** Parsing keeps duplicates: `rock, rock` gives two tags. */
  lemma ParseTagsKeepsDuplicates()
    ensures ParseTags("rock, rock") == ["rock", "rock"]
  {
    var rock := "rock";
    assert WellFormedTag(rock);
    assert Join([rock, rock], ", ") == "rock, rock";
    ParseTagsJoin([rock, rock]);
  }
}
