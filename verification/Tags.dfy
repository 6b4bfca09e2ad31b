/** Lists of Neutron tags as comma separated text: api/v1beta1/conversion.go. */
module Tags {

  predicate CommaFree(s: string) {
    ',' !in s
  }

  /** A tag as its API type describes it: not empty, no comma. */
  predicate IsTag(s: string) {
    s != "" && CommaFree(s)
  }

  predicate AllTags(ts: seq<string>) {
    forall i :: 0 <= i < |ts| ==> IsTag(ts[i])
  }

  // ---------------------------------------------------------------- joining

  function Join(ts: seq<string>): string {
    if ts == [] then ""
    else if |ts| == 1 then ts[0]
    else ts[0] + "," + Join(ts[1..])
  }

  lemma {:induction false} JoinSnoc(ts: seq<string>, t: string)
    requires ts != []
    ensures Join(ts + [t]) == Join(ts) + "," + t
  {
    if |ts| == 1 {
      assert ts + [t] == [ts[0], t] && [ts[0], t][1..] == [t];
    } else {
      JoinSnoc(ts[1..], t);
      assert (ts + [t])[1..] == ts[1..] + [t];
    }
  }

  /** A single tag is its own text, and the texts of two lists are put one after the other, with a comma between. */
  lemma {:induction false} JoinConcat(ts: seq<string>, us: seq<string>)
    requires ts != [] && us != []
    ensures Join(ts + us) == Join(ts) + "," + Join(us)
    ensures |ts| == 1 ==> Join(ts) == ts[0]
  {
    if |ts| == 1 {
      assert (ts + us)[1..] == us;
    } else {
      JoinConcat(ts[1..], us);
      assert (ts + us)[1..] == ts[1..] + us;
    }
  }

  method JoinTags(tags: seq<string>) returns (text: string)
    ensures text == Join(tags)
  {
    text := "";
    for i := 0 to |tags|
      invariant text == Join(tags[..i])
    {
      if i > 0 {
        text := text + ",";
        JoinSnoc(tags[..i], tags[i]);
      }
      text := text + tags[i];
      assert tags[..i + 1] == tags[..i] + [tags[i]];
    }
    assert tags[..|tags|] == tags;
  }

  // ---------------------------------------------------------------- splitting

  /** strings.Split(s, ","): the pieces between commas, empty ones included. */
  function Split(s: string): (pieces: seq<string>)
    ensures pieces != []
  {
    if s == "" then [""]
    else
      var rest := Split(s[1..]);
      if s[0] == ',' then [""] + rest else [[s[0]] + rest[0]] + rest[1..]
  }

  /** The pieces are the one way to cut a text into comma-free parts that join to it again. */
  lemma {:induction false} SplitJoins(s: string)
    ensures Join(Split(s)) == s
    ensures forall i :: 0 <= i < |Split(s)| ==> CommaFree(Split(s)[i])
  {
    if s != "" {
      SplitJoins(s[1..]);
      var rest := Split(s[1..]);
      assert s == [s[0]] + s[1..];
      if s[0] == ',' {
        assert ([""] + rest)[1..] == rest;
      } else {
        assert ([[s[0]] + rest[0]] + rest[1..])[1..] == rest[1..];
      }
    }
  }

  lemma {:induction false} SplitPiece(t: string, s: string)
    requires CommaFree(t)
    ensures Split(t) == [t]
    ensures Split(t + "," + s) == [t] + Split(s)
  {
    if t == "" {
      assert t + "," + s == "," + s && ("," + s)[1..] == s;
    } else {
      SplitPiece(t[1..], s);
      assert t == [t[0]] + t[1..];
      assert (t + "," + s)[1..] == t[1..] + "," + s;
    }
  }

  lemma {:induction false} SplitOfJoin(ts: seq<string>)
    requires ts != [] && forall i :: 0 <= i < |ts| ==> CommaFree(ts[i])
    ensures Split(Join(ts)) == ts
  {
    if |ts| == 1 {
      SplitPiece(ts[0], "");
    } else {
      SplitOfJoin(ts[1..]);
      SplitPiece(ts[0], Join(ts[1..]));
    }
  }

  function NonEmpty(pieces: seq<string>): seq<string> {
    if pieces == [] then []
    else if pieces[0] == "" then NonEmpty(pieces[1..])
    else [pieces[0]] + NonEmpty(pieces[1..])
  }

  lemma {:induction false} NonEmptySnoc(pieces: seq<string>, p: string)
    ensures NonEmpty(pieces + [p]) == NonEmpty(pieces) + (if p == "" then [] else [p])
  {
    if pieces == [] {
      assert [p][1..] == [];
    } else {
      NonEmptySnoc(pieces[1..], p);
      assert (pieces + [p])[1..] == pieces[1..] + [p];
    }
  }

  lemma {:induction false} NonEmptyFacts(pieces: seq<string>)
    ensures |NonEmpty(pieces)| <= |pieces|
    ensures forall p :: p in NonEmpty(pieces) <==> p in pieces && p != ""
    ensures NonEmpty(pieces) == pieces <==> "" !in pieces
  {
    if pieces != [] {
      NonEmptyFacts(pieces[1..]);
      assert pieces == [pieces[0]] + pieces[1..];
    }
  }

  function SplitTagsOf(text: string): seq<string> {
    NonEmpty(Split(text))
  }

  method SplitTags(tags: string) returns (out: seq<string>)
    ensures out == SplitTagsOf(tags)
  {
    out := [];
    if tags == "" {
      return;
    }
    var pieces := Split(tags);
    for i := 0 to |pieces|
      invariant out == NonEmpty(pieces[..i])
    {
      NonEmptySnoc(pieces[..i], pieces[i]);
      assert pieces[..i + 1] == pieces[..i] + [pieces[i]];
      if pieces[i] != "" {
        out := out + [pieces[i]];
      }
    }
    assert pieces[..|pieces|] == pieces;
  }

  // ---------------------------------------------------------------- round trips

  lemma SplitTagsFacts(text: string)
    ensures AllTags(SplitTagsOf(text))
  {
    SplitJoins(text);
    NonEmptyFacts(Split(text));
    forall i | 0 <= i < |SplitTagsOf(text)| ensures IsTag(SplitTagsOf(text)[i]) {
      assert SplitTagsOf(text)[i] in SplitTagsOf(text);
    }
  }

  /** A list comes back from text exactly if it holds proper tags only. */
  lemma ListRoundTripExactly(ts: seq<string>)
    ensures SplitTagsOf(Join(ts)) == ts <==> AllTags(ts)
  {
    SplitTagsFacts(Join(ts));
    if AllTags(ts) && ts != [] {
      SplitOfJoin(ts);
      NonEmptyFacts(ts);
    }
  }

  /**
   * Text to list to text keeps the tags and drops the empty pieces, is idempotent, and changes a
   * text exactly if it has an empty piece (other than being empty).
   */
  lemma TextRoundTripExactly(text: string)
    ensures var again := Join(SplitTagsOf(text));
            && SplitTagsOf(again) == SplitTagsOf(text)
            && Join(SplitTagsOf(again)) == again
            && (SplitTagsOf(text) != [] ==> Split(again) == NonEmpty(Split(text)))
            && (again == text <==> text == "" || "" !in Split(text))
  {
    SplitTagsFacts(text);
    ListRoundTripExactly(SplitTagsOf(text));
    SplitJoins(text);
    NonEmptyFacts(Split(text));
    if SplitTagsOf(text) != [] {
      SplitOfJoin(SplitTagsOf(text));
    }
  }
}
