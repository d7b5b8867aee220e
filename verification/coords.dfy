/** Recognition of a literal "lat,lon" location (script.js `parseCoords`). */
module Coords {
  import opened Wrappers
  import opened Text

  datatype Coord = Coord(lat: real, lon: real)

  /** `parseCoords(input)`. `parseNumber` stands for `parseFloat`, which the
      model leaves abstract: `None` where `parseFloat` gives NaN. The input is
      split on every comma, each part is trimmed, and only a split into
      exactly two parts that both parse gives coordinates. */
  function ParseCoords(input: string, parseNumber: string -> Option<real>): (r: Option<Coord>)
    ensures r.Some? ==> Count(input, ',') == 1
  {
    var parts := Split(input, ',');
    var trimmed := seq(|parts|, i requires 0 <= i < |parts| => Trim(parts[i]));
    if |trimmed| == 2 then
      var lat := parseNumber(trimmed[0]);
      var lon := parseNumber(trimmed[1]);
      if lat.Some? && lon.Some? then Some(Coord(lat.value, lon.value)) else None
    else None
  }

  /** An input with exactly one comma, `a,b`, gives the numbers of the trimmed
      halves when both parse, and nothing otherwise. Together with the
      postcondition of `ParseCoords` this covers every input: with any other
      number of commas the result is `None`. */
  lemma {:induction false} ParseCoordsOfPair(a: string, b: string, parseNumber: string -> Option<real>)
    requires ',' !in a && ',' !in b
    ensures Count(a + [','] + b, ',') == 1
    ensures ParseCoords(a + [','] + b, parseNumber)
         == (if parseNumber(Trim(a)).Some? && parseNumber(Trim(b)).Some?
             then Some(Coord(parseNumber(Trim(a)).value, parseNumber(Trim(b)).value))
             else None)
  {
    SplitJoin([a, b], ',');
    assert [a, b][1..] == [b];
    assert Join([a, b], ',') == a + [','] + b;
  }

  /** Every input with exactly one comma is of the form `a,b` with comma-free
      halves, so `ParseCoordsOfPair` describes all of them. */
  lemma OneCommaIsPair(input: string)
    requires Count(input, ',') == 1
    ensures Split(input, ',')[0] + [','] + Split(input, ',')[1] == input
    ensures ',' !in Split(input, ',')[0] && ',' !in Split(input, ',')[1]
  {
    var parts := Split(input, ',');
    JoinSplit(input, ',');
    assert parts[1..] == [parts[1]];
  }
}
