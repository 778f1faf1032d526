/**
 * The `imageUris` parameter of a compose intent: a comma-separated list of
 * `path|width|height` entries. Entries whose text holds `http://` or `https://`
 * (case-sensitively) are dropped, entries not of the exact shape are dropped, and the
 * rest become image references, in order.
 */
module ImageValidation {
  import opened Wrappers
  import opened Strings

  /** One validated image: the path and the two dimensions as numbers. */
  datatype ImageRef = ImageRef(uri: string, width: real, height: real)

  /** `[\w.:\-_/]`: ASCII letters, digits, `_`, `.`, `:`, `-` and `/`. */
  predicate IsPathChar(c: char) {
    'a' <= c <= 'z' || 'A' <= c <= 'Z' || '0' <= c <= '9' || c == '_'
    || c == '.' || c == ':' || c == '-' || c == '/'
  }

  /** `\d` */
  predicate IsDigit(c: char) {
    '0' <= c <= '9'
  }

  /** `[\w.:\-_/]+` */
  predicate IsPathToken(s: string) {
    |s| > 0 && forall k | 0 <= k < |s| :: IsPathChar(s[k])
  }

  /** `\d+` */
  predicate IsDigits(s: string) {
    |s| > 0 && forall k | 0 <= k < |s| :: IsDigit(s[k])
  }

  /** `\d+(\.\d+)?` */
  predicate IsDecimal(s: string) {
    IsDigits(s) || exists k | 0 <= k < |s| :: s[k] == '.' && IsDigits(s[..k]) && IsDigits(s[k + 1..])
  }

  /** `entry` is path `|` decimal `|` decimal with its two bars at positions `i` and `j`. */
  predicate FieldsAt(entry: string, i: nat, j: nat) {
    i < j < |entry| && entry[i] == '|' && entry[j] == '|'
    && IsPathToken(entry[..i]) && IsDecimal(entry[i + 1..j]) && IsDecimal(entry[j + 1..])
  }

  /**
   * The image pattern `^[\w.:\-_/]+\|\d+(\.\d+)?\|\d+(\.\d+)?$` matched against
   * the whole entry: a path, a `|`, a decimal, a `|`, a decimal.
   */
  predicate MatchesImagePattern(entry: string) {
    exists i: nat, j: nat | i < j < |entry| :: FieldsAt(entry, i, j)
  }

  /** The entry holds `https://` or `http://` anywhere (a case-sensitive `includes`). */
  predicate HasRemoteLocator(entry: string) {
    Contains(entry, "https://") || Contains(entry, "http://")
  }

  /** The predicate of the `filter` step. */
  predicate KeepEntry(entry: string) {
    !HasRemoteLocator(entry) && MatchesImagePattern(entry)
  }

  /**
   * What every produced image reference satisfies: a path token whose text
   * holds neither `https://` nor `http://`. The test is case-sensitive, so
   * `HTTPS://…`, `ftp://…` and `//host/…` references pass it.
   */
  predicate PassesImageFilter(image: ImageRef) {
    IsPathToken(image.uri) && !HasRemoteLocator(image.uri) && image.width >= 0.0 && image.height >= 0.0
  }

  lemma DecimalHasNoBar(s: string)
    requires IsDecimal(s)
    ensures '|' !in s
  {
    if !IsDigits(s) {
      var k :| 0 <= k < |s| && s[k] == '.' && IsDigits(s[..k]) && IsDigits(s[k + 1..]);
      forall m | 0 <= m < |s| ensures s[m] != '|' {
        if m < k { assert s[m] == s[..k][m]; }
        else if m > k { assert s[m] == s[k + 1..][m - k - 1]; }
      }
    }
  }

  /** The fields of a matching entry: a path, then two decimals. */
  predicate IsImageFields(fields: seq<string>) {
    |fields| == 3 && IsPathToken(fields[0]) && IsDecimal(fields[1]) && IsDecimal(fields[2])
  }

  /** Three `|`-free strings joined by `|` split back into themselves. */
  lemma SplitThreeFields(path: string, width: string, height: string)
    requires '|' !in path && '|' !in width && '|' !in height
    ensures Split(path + "|" + width + "|" + height, '|') == [path, width, height]
  {
    assert path + "|" + width + "|" + height == path + ['|'] + (width + ['|'] + height);
    SplitAtFirst(path, '|', width + ['|'] + height);
    SplitAtFirst(width, '|', height);
    SplitWithoutSeparator(height, '|');
  }

  lemma PathTokenHasNoBar(s: string)
    requires IsPathToken(s)
    ensures '|' !in s
  {
    forall k | 0 <= k < |s| ensures s[k] != '|' { assert IsPathChar(s[k]); }
  }

  /** The bars at `i` and `j` cut the entry into its three `|`-split fields. */
  lemma SplitFieldsAt(entry: string, i: nat, j: nat)
    requires FieldsAt(entry, i, j)
    ensures Split(entry, '|') == [entry[..i], entry[i + 1..j], entry[j + 1..]]
    ensures entry == entry[..i] + "|" + entry[i + 1..j] + "|" + entry[j + 1..]
  {
    var path, width, height := entry[..i], entry[i + 1..j], entry[j + 1..];
    PathTokenHasNoBar(path);
    DecimalHasNoBar(width);
    DecimalHasNoBar(height);
    assert entry == path + "|" + width + "|" + height;
    SplitThreeFields(path, width, height);
  }

  /** A matching entry is exactly three `|`-free fields: a path and two decimals. */
  lemma PatternFields(entry: string)
    requires MatchesImagePattern(entry)
    ensures IsImageFields(Split(entry, '|'))
    ensures var fields := Split(entry, '|'); entry == fields[0] + "|" + fields[1] + "|" + fields[2]
  {
    var i: nat, j: nat :| i < j < |entry| && FieldsAt(entry, i, j);
    SplitFieldsAt(entry, i, j);
  }

  /** Three fields of the right kinds make a matching entry. */
  lemma FieldsMatchPattern(entry: string)
    requires IsImageFields(Split(entry, '|'))
    ensures MatchesImagePattern(entry)
  {
    var fields := Split(entry, '|');
    JoinSplit(entry, '|');
    var path, width, height := fields[0], fields[1], fields[2];
    assert fields[1..][1..] == [height];
    assert Join(fields[1..], '|') == width + ['|'] + height;
    assert entry == path + ['|'] + width + ['|'] + height;
    var i, j := |path|, |path| + 1 + |width|;
    assert entry[i] == '|' && entry[j] == '|';
    assert entry[..i] == path;
    assert entry[i + 1..j] == width;
    assert entry[j + 1..] == height;
    assert FieldsAt(entry, i, j);
  }

  /** The pattern holds exactly when the `|`-split gives a path and two decimals. */
  lemma PatternIffFields(entry: string)
    ensures MatchesImagePattern(entry) <==> IsImageFields(Split(entry, '|'))
  {
    if MatchesImagePattern(entry) {
      PatternFields(entry);
    }
    if IsImageFields(Split(entry, '|')) {
      FieldsMatchPattern(entry);
    }
  }

  function DigitValue(c: char): nat {
    if IsDigit(c) then c as int - '0' as int else 0
  }

  /** The number a string of decimal digits denotes. */
  function DigitsValue(s: string): nat {
    if s == [] then 0 else 10 * DigitsValue(s[..|s| - 1]) + DigitValue(s[|s| - 1])
  }

  function Pow10(n: nat): (r: nat)
    ensures r >= 1
  {
    if n == 0 then 1 else 10 * Pow10(n - 1)
  }

  /** A string of `n` digits denotes less than ten to the `n`. */
  lemma {:induction false} DigitsBelowPow10(s: string)
    ensures DigitsValue(s) < Pow10(|s|)
    decreases |s|
  {
    if s != [] {
      DigitsBelowPow10(s[..|s| - 1]);
      assert DigitValue(s[|s| - 1]) <= 9;
    }
  }

  lemma FractionBelowOne(x: nat, p: nat)
    requires x < p
    ensures 0.0 <= x as real / p as real < 1.0
  {
  }

  /** The value of the digits after a decimal point: they denote a number in `[0, 1)`. */
  function FractionValue(digits: string): (r: real)
    ensures 0.0 <= r < 1.0
  {
    DigitsBelowPow10(digits);
    FractionBelowOne(DigitsValue(digits), Pow10(|digits|));
    DigitsValue(digits) as real / Pow10(|digits|) as real
  }

  /** `Number(text)` for a matched decimal, as its exact value. */
  function DecimalValue(text: string): (r: real)
    ensures r >= 0.0
    ensures '.' !in text ==> r == DigitsValue(text) as real
  {
    var parts := Split(text, '.');
    SplitJoinOne(text, '.');
    if |parts| == 1 then
      DigitsValue(parts[0]) as real
    else
      DigitsValue(parts[0]) as real + FractionValue(parts[1])
  }

  /** Appending digits shifts the value of the leading digits by a power of ten. */
  lemma {:induction false} DigitsValueAppend(a: string, b: string)
    ensures DigitsValue(a + b) == DigitsValue(a) * Pow10(|b|) + DigitsValue(b)
    decreases |b|
  {
    if b == [] {
      assert a + b == a;
    } else {
      var init := b[..|b| - 1];
      assert (a + b)[..|a + b| - 1] == a + init;
      assert (a + b)[|a + b| - 1] == b[|b| - 1];
      DigitsValueAppend(a, init);
      var x, p, y, d := DigitsValue(a), Pow10(|init|), DigitsValue(init), DigitValue(b[|b| - 1]);
      assert DigitsValue(a + b) == 10 * (x * p + y) + d;
      assert Pow10(|b|) == 10 * p;
      assert DigitsValue(b) == 10 * y + d;
      ShiftDigits(x, p, y, d);
    }
  }

  lemma ShiftDigits(x: int, p: int, y: int, d: int)
    ensures 10 * (x * p + y) + d == x * (10 * p) + (10 * y + d)
  {
  }

  /** Digit strings hold no `.`. */
  lemma DigitsHaveNoDot(s: string)
    requires IsDigits(s)
    ensures '.' !in s
  {
    forall k | 0 <= k < |s| ensures s[k] != '.' { assert IsDigit(s[k]); }
  }

  /** `a.b` with digit strings `a` and `b` splits on `.` into `a` and `b`. */
  lemma FractionSplit(a: string, b: string)
    requires IsDigits(a) && IsDigits(b)
    ensures Split(a + "." + b, '.') == [a, b]
  {
    DigitsHaveNoDot(a);
    DigitsHaveNoDot(b);
    assert a + "." + b == a + ['.'] + b;
    SplitAtFirst(a, '.', b);
    SplitWithoutSeparator(b, '.');
  }

  /**
   * `Number(a + "." + b)` for digit strings `a` and `b`: the value of `a`
   * plus the fraction `b`, so its whole part is the value of `a`.
   */
  lemma DecimalValueOfFraction(a: string, b: string)
    requires IsDigits(a) && IsDigits(b)
    ensures DecimalValue(a + "." + b) == DigitsValue(a) as real + FractionValue(b)
    ensures DecimalValue(a + "." + b).Floor == DigitsValue(a)
  {
    FractionSplit(a, b);
  }

  /** A split into one piece is the whole string, and a string without the separator splits so. */
  lemma SplitJoinOne(s: string, sep: char)
    ensures |Split(s, sep)| == 1 <==> sep !in s
    ensures |Split(s, sep)| == 1 ==> Split(s, sep)[0] == s
  {
    JoinSplit(s, sep);
    if sep !in s {
      SplitWithoutSeparator(s, sep);
    }
  }

  /** A leading part of an entry holding neither `https://` nor `http://` holds neither either. */
  lemma PrefixKeepsNoLocator(entry: string, field: string)
    requires StartsWith(entry, field)
    ensures !HasRemoteLocator(entry) ==> !HasRemoteLocator(field)
  {
    assert entry[..|field|] == field;
    if Contains(field, "https://") { ContainsInPrefix(entry, |field|, "https://"); }
    if Contains(field, "http://") { ContainsInPrefix(entry, |field|, "http://"); }
  }

  /** The `map` step: the entry's fields become `{uri, width: Number(width), height: Number(height)}`. */
  function ToImageRef(entry: string): (image: ImageRef)
    requires MatchesImagePattern(entry)
    ensures IsPathToken(image.uri) && '|' !in image.uri && StartsWith(entry, image.uri + "|")
    ensures image.width >= 0.0 && image.height >= 0.0
    ensures !HasRemoteLocator(entry) ==> PassesImageFilter(image)
  {
    PatternFields(entry);
    var fields := Split(entry, '|');
    var uri := fields[0];
    assert entry[..|uri| + 1] == uri + "|";
    PrefixKeepsNoLocator(entry, uri);
    ImageRef(uri, DecimalValue(fields[1]), DecimalValue(fields[2]))
  }

  /**
   * The image of an entry whose bars stand at `i` and `j` is the path before
   * the first bar, and `Number` of the text between the bars and after the
   * second one.
   */
  lemma ToImageRefFields(entry: string, i: nat, j: nat)
    requires FieldsAt(entry, i, j)
    ensures ToImageRef(entry) == ImageRef(entry[..i], DecimalValue(entry[i + 1..j]), DecimalValue(entry[j + 1..]))
  {
    SplitFieldsAt(entry, i, j);
  }

  /** `entries.filter(KeepEntry).map(ToImageRef)` */
  function ValidImages(entries: seq<string>): (images: seq<ImageRef>)
    ensures |images| <= |entries|
    ensures forall k | 0 <= k < |images| :: PassesImageFilter(images[k])
  {
    if entries == [] then []
    else (if KeepEntry(entries[0]) then [ToImageRef(entries[0])] else []) + ValidImages(entries[1..])
  }

  /** `imageUrisStr?.split(',').filter(...).map(...)`: absent stays absent. */
  function ImagesFromParam(imageUrisStr: Option<string>): (images: Option<seq<ImageRef>>)
    ensures images.None? <==> imageUrisStr.None?
    ensures images.Some? ==> |images.value| <= |Split(imageUrisStr.value, ',')|
    ensures images.Some? ==> forall k | 0 <= k < |images.value| :: PassesImageFilter(images.value[k])
  {
    match imageUrisStr
    case None => None
    case Some(s) => Some(ValidImages(Split(s, ',')))
  }

  /** Entries are filtered one by one: the list of a concatenation is the concatenation of the lists. */
  lemma {:induction false} ValidImagesAppend(xs: seq<string>, ys: seq<string>)
    ensures ValidImages(xs + ys) == ValidImages(xs) + ValidImages(ys)
    decreases |xs|
  {
    if xs == [] {
      assert xs + ys == ys;
    } else {
      assert (xs + ys)[0] == xs[0];
      assert (xs + ys)[1..] == xs[1..] + ys;
      ValidImagesAppend(xs[1..], ys);
    }
  }

  /** A dropped entry leaves the images of its neighbours as they were. */
  lemma DroppedEntryIsInvisible(xs: seq<string>, entry: string, ys: seq<string>)
    requires !KeepEntry(entry)
    ensures ValidImages(xs + [entry] + ys) == ValidImages(xs + ys)
  {
    ValidImagesAppend(xs + [entry], ys);
    ValidImagesAppend(xs, [entry]);
    ValidImagesAppend(xs, ys);
  }

  /** A kept entry yields its image in its own place, whatever its neighbours are; nothing is deduplicated. */
  lemma KeptEntryInPlace(xs: seq<string>, entry: string, ys: seq<string>)
    requires KeepEntry(entry)
    ensures ValidImages(xs + [entry] + ys) == ValidImages(xs) + [ToImageRef(entry)] + ValidImages(ys)
  {
    ValidImagesAppend(xs + [entry], ys);
    ValidImagesAppend(xs, [entry]);
  }

  /** An entry naming an `http(s)://` location never yields an image. */
  lemma RemoteEntryDropped(xs: seq<string>, entry: string, ys: seq<string>)
    requires HasRemoteLocator(entry)
    ensures ValidImages(xs + [entry] + ys) == ValidImages(xs + ys)
  {
    DroppedEntryIsInvisible(xs, entry, ys);
  }

  /** A parameter that joins comma-free entries with `,` is read back entry by entry. */
  lemma ImagesOfJoinedEntries(entries: seq<string>)
    requires |entries| >= 1
    requires forall k | 0 <= k < |entries| :: ',' !in entries[k]
    ensures ImagesFromParam(Some(Join(entries, ','))) == Some(ValidImages(entries))
  {
    SplitJoin(entries, ',');
  }

  /** A parameter of two comma-free entries yields the images of the first, then those of the second. */
  lemma ImagesOfTwoEntries(first: string, second: string)
    requires ',' !in first && ',' !in second
    ensures ImagesFromParam(Some(first + "," + second)) == Some(ValidImages([first]) + ValidImages([second]))
  {
    assert first + "," + second == first + [','] + second;
    SplitAtFirst(first, ',', second);
    SplitWithoutSeparator(second, ',');
    ValidImagesAppend([first], [second]);
  }

  /** A parameter of one comma-free entry yields its image exactly when the entry is kept. */
  lemma SingleEntryKeptIff(entry: string)
    requires ',' !in entry
    ensures ImagesFromParam(Some(entry)) == Some(if KeepEntry(entry) then [ToImageRef(entry)] else [])
  {
    SplitWithoutSeparator(entry, ',');
    ValidImagesOne(entry);
  }

  /** One entry yields its image when kept and nothing otherwise. */
  lemma ValidImagesOne(entry: string)
    ensures ValidImages([entry]) == (if KeepEntry(entry) then [ToImageRef(entry)] else [])
  {
    assert [entry][1..] == [];
  }

  /**
   * One entry yields an image exactly when it holds neither `https://` nor `http://` and
   * splits on `|` into a path and two decimals.
   */
  lemma EntryKeptIff(entry: string)
    ensures ValidImages([entry]) != [] <==> !HasRemoteLocator(entry) && IsImageFields(Split(entry, '|'))
  {
    ValidImagesOne(entry);
    PatternIffFields(entry);
  }

  /** An entry with no `:` holds neither `https://` nor `http://`. */
  lemma ColonFreeHasNoLocator(entry: string)
    requires ':' !in entry
    ensures !HasRemoteLocator(entry)
  {
    MissingCharNotContained(entry, "https://", 5);
    MissingCharNotContained(entry, "http://", 4);
  }
}
