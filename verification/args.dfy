/**
 * The parsers of the command-line path arguments (src/args.rs): a path is
 * split on '.' and on the box-drawing bar '│', each piece is trimmed, and
 * either kept as a name or parsed as a `usize` index; a piece that is not an
 * index panics with "digit". Neither parser ever returns its error variant.
 */
module Args {
  import opened Wrappers
  import Text
  import Numeric
  import Listing

  const Separators: set<char> := {'.', '\U{2502}'}

  const Digit: string := "digit"

  /** `parse_path_names`: one trimmed name per piece, empty ones included. */
  function ParsePathNames(path: string): (names: seq<string>)
    ensures |names| == Text.CountOf(path, Separators) + 1
    ensures forall k | 0 <= k < |names| ::
      Text.NoneOf(names[k], Separators) &&
      (|names[k]| > 0 ==> !Text.IsWhitespace(names[k][0]) && !Text.IsWhitespace(names[k][|names[k]| - 1]))
  {
    var raw := Text.Split(path, Separators);
    seq(|raw|, k requires 0 <= k < |raw| => Text.Trim(raw[k]))
  }

  /** Each trimmed piece parsed as a `usize`; the first that does not parse panics. */
  function ParseAll(pieces: seq<string>): (r: Outcome<seq<nat>>)
    ensures r.Panics? ==> r.message == Digit
    ensures r.Returns? ==> |r.value| == |pieces|
  {
    if |pieces| == 0 then Returns([])
    else match Text.ParseUnsigned(pieces[0], Numeric.UsizeMax)
      case None => Panics(Digit)
      case Some(n) =>
        (match ParseAll(pieces[1..])
         case Panics(m) => Panics(m)
         case Returns(rest) => Returns([n] + rest))
  }

  /** `parse_path_indexes`: the same trimmed pieces, each parsed as an index. */
  function ParsePathIndexes(path: string): (r: Outcome<seq<nat>>)
    ensures r.Panics? ==> r.message == Digit
    ensures r.Returns? ==> |r.value| == Text.CountOf(path, Separators) + 1
  {
    ParseAll(ParsePathNames(path))
  }

  /**
   * Parsing panics, with "digit", exactly when some trimmed piece is not a
   * `usize`; otherwise it gives one index per piece, each the piece's value.
   */
  lemma {:induction false} ParseAllSpec(pieces: seq<string>)
    ensures var r := ParseAll(pieces);
      (r.Panics? <==> exists k | 0 <= k < |pieces| :: Text.ParseUnsigned(pieces[k], Numeric.UsizeMax).None?) &&
      (r.Panics? ==> r.message == Digit) &&
      (r.Returns? ==>
        (|r.value| == |pieces| &&
         forall k | 0 <= k < |pieces| :: Text.ParseUnsigned(pieces[k], Numeric.UsizeMax) == Some(r.value[k])))
    decreases |pieces|
  {
    if |pieces| > 0 {
      ParseAllSpec(pieces[1..]);
      var r := ParseAll(pieces);
      if Text.ParseUnsigned(pieces[0], Numeric.UsizeMax).Some? {
        if r.Panics? {
          var k :| 0 <= k < |pieces| - 1 && Text.ParseUnsigned(pieces[1..][k], Numeric.UsizeMax).None?;
          assert pieces[1..][k] == pieces[k + 1];
        } else {
          forall k | 0 <= k < |pieces| && k > 0
            ensures Text.ParseUnsigned(pieces[k], Numeric.UsizeMax) == Some(r.value[k])
          {
            assert pieces[k] == pieces[1..][k - 1];
          }
          forall k | 0 <= k < |pieces|
            ensures Text.ParseUnsigned(pieces[k], Numeric.UsizeMax).Some?
          {
          }
        }
      }
    }
  }

  /** The empty argument names one empty widget and is not a path of indexes. */
  lemma EmptyArgument()
    ensures ParsePathNames("") == [""]
    ensures ParsePathIndexes("") == Panics(Digit)
  {
    assert Text.Split("", Separators) == [""];
    assert ParsePathNames("") == [""];
  }

  /** Padding made of whitespace only, around a separator character. */
  predicate Padding(pre: string, c: char, post: string) {
    c in Separators && Text.AllWhitespace(pre) && Text.AllWhitespace(post)
  }

  lemma WhitespaceIsNoSeparator(s: string)
    requires Text.AllWhitespace(s)
    ensures Text.NoneOf(s, Separators)
  {
  }

  /** A name that survives the round trip: non-empty, no separator, no whitespace at either end. */
  predicate PlainName(name: string) {
    |name| > 0 && Text.NoneOf(name, Separators) &&
    !Text.IsWhitespace(name[0]) && !Text.IsWhitespace(name[|name| - 1])
  }

  /**
   * Names joined with a separator character, padded by whitespace on either
   * side, parse back to the same names.
   */
  lemma NamesRoundTrip(names: seq<string>, pre: string, c: char, post: string)
    requires |names| > 0 && forall k | 0 <= k < |names| :: PlainName(names[k])
    requires Padding(pre, c, post)
    ensures ParsePathNames(Text.Join(names, pre + [c] + post)) == names
  {
    WhitespaceIsNoSeparator(pre);
    WhitespaceIsNoSeparator(post);
    var joined := Text.Join(names, pre + [c] + post);
    Text.SplitJoin(names, "", pre, c, post, Separators);
    assert "" + joined == joined;
    var raw := Text.Split(joined, Separators);
    var parsed := ParsePathNames(joined);
    assert |parsed| == |raw| == |names|;
    forall k | 0 <= k < |names| ensures parsed[k] == names[k] {
      assert parsed[k] == Text.Trim(raw[k]);
      TrimPiece(names, k, pre, c, post);
    }
  }

  /** Trimming a piece of the joined names gives back the name. */
  lemma TrimPiece(names: seq<string>, k: nat, pre: string, c: char, post: string)
    requires k < |names| && PlainName(names[k])
    requires Padding(pre, c, post)
    ensures Text.Trim(Text.FramedPiece(names, k, "", pre, post)) == names[k]
  {
    var lead := if k == 0 then "" else post;
    var tail := if k + 1 < |names| then pre else "";
    assert Text.FramedPiece(names, k, "", pre, post) == lead + names[k] + tail;
    Text.TrimFramed(lead, names[k], tail);
  }

  /** The decimal renderings of `path`. */
  function Decimals(path: seq<nat>): (parts: seq<string>)
    ensures |parts| == |path|
  {
    seq(|path|, j requires 0 <= j < |path| => Text.Decimal(path[j]))
  }

  lemma DecimalIsPlain(n: nat)
    ensures PlainName(Text.Decimal(n))
  {
    var d := Text.Decimal(n);
    assert Text.IsDigit(d[0]) && Text.IsDigit(d[|d| - 1]);
    forall i | 0 <= i < |d| ensures d[i] !in Separators {
      assert Text.IsDigit(d[i]);
    }
  }

  /** Decimal renderings of indexes that fit in a `usize` parse back to those indexes. */
  lemma DecimalsParse(path: seq<nat>)
    requires forall k | 0 <= k < |path| :: path[k] <= Numeric.UsizeMax
    ensures ParseAll(Decimals(path)) == Returns(path)
  {
    var parts := Decimals(path);
    ParseAllSpec(parts);
    forall k | 0 <= k < |parts| ensures Text.ParseUnsigned(parts[k], Numeric.UsizeMax) == Some(path[k]) {
      Text.ParseDecimal(path[k], Numeric.UsizeMax);
    }
    var r := ParseAll(parts);
    assert r.Returns?;
    assert r.value == path;
  }

  /**
   * Indexes rendered in decimal and joined with a padded separator parse back
   * to the same indexes, as long as each fits in a `usize`.
   */
  lemma IndexesRoundTrip(path: seq<nat>, pre: string, c: char, post: string)
    requires |path| > 0 && forall k | 0 <= k < |path| :: path[k] <= Numeric.UsizeMax
    requires Padding(pre, c, post)
    ensures ParsePathIndexes(Text.Join(Decimals(path), pre + [c] + post)) == Returns(path)
  {
    var parts := Decimals(path);
    forall k | 0 <= k < |parts| ensures PlainName(parts[k]) {
      DecimalIsPlain(path[k]);
    }
    NamesRoundTrip(parts, pre, c, post);
    DecimalsParse(path);
  }

  /** The indexes a listing shows as a location are accepted back as a path filter. */
  lemma ListedLocationIsAFilter(path: seq<nat>)
    requires |path| > 0 && forall k | 0 <= k < |path| :: path[k] <= Numeric.UsizeMax
    ensures ParsePathIndexes(Listing.IndexesText(path)) == Returns(path)
  {
    assert " " + ['.'] + " " == " . ";
    assert Decimals(path) == seq(|path|, j requires 0 <= j < |path| => Text.Decimal(path[j]));
    IndexesRoundTrip(path, " ", '.', " ");
  }
}
