/** A card record, one row of the collection table, and the sort key that
    `extract_last_name` derives from its name. */
module Cards {
  import opened Wrappers
  import opened Text

  /** One row of the table: the columns Year, Category, Set, Name, Condition,
      Approx Value, Front Image, Back Image and Notes. A blank cell of a text
      column is the empty string. */
  datatype Card = Card(
    year: int,
    category: string,
    setName: string,
    name: string,
    condition: string,
    value: int,
    frontImage: string,
    backImage: string,
    notes: string)

  /** `extract_last_name`: with two or more words the lower-cased last word,
      with one word the lower-cased first letter of it. A name without any
      word makes the source fail: a whitespace-only name at `parts[0][0]`
      (IndexError), a blank cell, read as NaN, at `name.split()`
      (AttributeError). That failure is `None`. */
  function LastName(name: string): (key: Option<string>)
    ensures key.None? <==> AllSpace(name)
    ensures key.Some? ==> IsWord(key.value)
    ensures key.Some? ==> forall i :: 0 <= i < |key.value| ==> !IsUpper(key.value[i])
  {
    var parts := Words(name);
    if |parts| > 1 then
      LowerKeepsSpaces(parts[|parts| - 1]);
      Some(Lower(parts[|parts| - 1]))
    else if |parts| == 1 then
      LowerKeepsSpaces(parts[0][..1]);
      Some(Lower(parts[0][..1]))
    else
      None
  }

  /** For a name of two or more words ("First Last"), the key is the last
      word in lower case. */
  lemma LastNameOfFullName(parts: seq<string>)
    requires |parts| >= 2
    requires forall k :: 0 <= k < |parts| ==> IsWord(parts[k])
    ensures LastName(JoinWords(parts)) == Some(Lower(parts[|parts| - 1]))
  {
    WordsOfJoin(parts);
  }

  /** For a one-word name, the key is its first letter in lower case. */
  lemma LastNameOfSingleWord(w: string)
    requires IsWord(w)
    ensures LastName(w) == Some([LowerChar(w[0])])
  {
    WordsOfJoin([w]);
    assert JoinWords([w]) == w;
    assert Lower(w[..1]) == [LowerChar(w[0])];
  }

  /** "Bobby Orr" gives "orr". */
  lemma LastNameOfBobbyOrr()
    ensures LastName("Bobby Orr") == Some("orr")
  {
    var full := ["Bobby", "Orr"];
    assert IsWord(full[0]) && IsWord(full[1]);
    assert JoinWords(full) == "Bobby Orr";
    LastNameOfFullName(full);
    assert Lower("Orr") == "orr";
  }

  /** "Pele", a single word, gives "p". */
  lemma LastNameOfPele()
    ensures LastName("Pele") == Some("p")
  {
    assert IsWord("Pele");
    LastNameOfSingleWord("Pele");
  }
}
