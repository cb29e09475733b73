/** The comma-separated lists that the name builders append to a StringBuilder. */
module Text {

  /** `names` joined by ",", with no separator before the first name: the
      shape every `for (i ...) { if (i > 0) Append(","); Append(...); }` loop builds. */
  function CommaList(names: seq<string>): string
  {
    if |names| == 0 then ""
    else CommaList(names[..|names| - 1]) + Piece(|names| - 1, names[|names| - 1])
  }

  /** What one turn of such a loop appends for the name at position `i`. */
  function Piece(i: nat, name: string): string
  {
    (if i > 0 then "," else "") + name
  }

  /** Appending one more name extends the list by exactly one piece. */
  lemma CommaListSnoc(names: seq<string>, name: string)
    ensures CommaList(names + [name]) == CommaList(names) + Piece(|names|, name)
  {
    assert (names + [name])[..|names|] == names;
  }

  /** A list of one name is that name, with no separator in front. */
  lemma CommaListSingle(name: string)
    ensures CommaList([name]) == name
  {
    assert [name][..0] == [];
  }

  /** A non-empty list starts with its first name: no separator comes before it. */
  lemma {:induction false} CommaListStartsWithFirst(names: seq<string>)
    requires |names| > 0
    ensures |names[0]| <= |CommaList(names)|
    ensures CommaList(names)[..|names[0]|] == names[0]
  {
    if |names| == 1 {
      CommaListSingle(names[0]);
    } else {
      var init := names[..|names| - 1];
      CommaListStartsWithFirst(init);
      assert init[0] == names[0];
      var tail := Piece(|names| - 1, names[|names| - 1]);
      assert CommaList(names) == CommaList(init) + tail;
      assert (CommaList(init) + tail)[..|names[0]|] == CommaList(init)[..|names[0]|];
    }
  }

  /** Each name after the first adds one separator: the length of the list is the
      total length of the names plus one comma between each neighbouring pair. */
  lemma {:induction false} CommaListLength(names: seq<string>)
    ensures |CommaList(names)| == TotalLength(names) + (if |names| == 0 then 0 else |names| - 1)
  {
    if |names| > 0 {
      CommaListLength(names[..|names| - 1]);
      TotalLengthSnoc(names[..|names| - 1], names[|names| - 1]);
      assert names[..|names| - 1] + [names[|names| - 1]] == names;
    }
  }

  /** The summed length of all names. */
  function TotalLength(names: seq<string>): nat
  {
    if |names| == 0 then 0 else |names[0]| + TotalLength(names[1..])
  }

  lemma {:induction false} TotalLengthSnoc(names: seq<string>, name: string)
    ensures TotalLength(names + [name]) == TotalLength(names) + |name|
  {
    if |names| == 0 {
      assert names + [name] == [name];
      assert [name][1..] == [];
    } else {
      assert (names + [name])[1..] == names[1..] + [name];
      TotalLengthSnoc(names[1..], name);
    }
  }
}
