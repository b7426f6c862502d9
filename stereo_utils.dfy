/**
 * Helpers of the stereo pipeline's Python driver: protecting negative
 * integers from the option parser (escape_vals / unescape_vals), the
 * BBox class and intersect_boxes, and the "key,val,..." parser of the
 * settings printed by stereo_parse.
 */
module StereoUtils {
  import opened Wrappers
  import opened FileNames

  // ---------------------------------------------------------------------
  // Splitting and joining on one character (str.split with a separator)

  /** str.split(c): the pieces between occurrences of c; there is always at least one. */
  function Split(s: string, c: char): (r: seq<string>)
    ensures |r| >= 1
    ensures forall k :: 0 <= k < |r| ==> c !in r[k]
    decreases |s|
  {
    RFindSpec(s, c);
    var i := RFind(s, c);
    if i == -1 then [s] else Split(s[..i], c) + [s[i + 1..]]
  }

  /** c.join(pieces). */
  function Join(pieces: seq<string>, c: char): string
    requires |pieces| >= 1
  {
    if |pieces| == 1 then pieces[0]
    else Join(pieces[..|pieces| - 1], c) + [c] + pieces[|pieces| - 1]
  }

  /** Joining the pieces of a split gives the string back. */
  lemma {:induction false} JoinSplit(s: string, c: char)
    ensures Join(Split(s, c), c) == s
    decreases |s|
  {
    RFindSpec(s, c);
    var i := RFind(s, c);
    if i != -1 {
      var front := Split(s[..i], c);
      var ps := Split(s, c);
      assert ps == front + [s[i + 1..]];
      assert ps[..|ps| - 1] == front;
      JoinSplit(s[..i], c);
      assert Join(ps, c) == Join(front, c) + [c] + s[i + 1..];
      assert s == s[..i] + [c] + s[i + 1..];
    }
  }

  /** Splitting a join of separator-free pieces gives the pieces back. */
  lemma {:induction false} SplitJoin(pieces: seq<string>, c: char)
    requires |pieces| >= 1
    requires forall k :: 0 <= k < |pieces| ==> c !in pieces[k]
    ensures Split(Join(pieces, c), c) == pieces
    decreases |pieces|
  {
    if |pieces| == 1 {
      RFindSpec(pieces[0], c);
    } else {
      var init := pieces[..|pieces| - 1];
      var last := pieces[|pieces| - 1];
      var front := Join(init, c) + [c];
      SplitJoin(init, c);
      RFindConcat(front, last, c);
      RFindConcat(Join(init, c), [c], c);
      assert RFind(Join(pieces, c), c) == |Join(init, c)|;
      assert Join(pieces, c)[..|Join(init, c)|] == Join(init, c);
      assert Join(pieces, c)[|Join(init, c)| + 1..] == last;
      assert pieces == init + [last];
    }
  }

  // ---------------------------------------------------------------------
  // escape_vals / unescape_vals

  const EscapeStr: string := "esc_rand_str"

  predicate IsDigit(ch: char) { '0' <= ch <= '9' }

  /** One or more decimal digits (\d+ on a byte string). */
  predicate IsDigits(s: string)
  {
    |s| >= 1 && forall k :: 0 <= k < |s| ==> IsDigit(s[k])
  }

  /** A minus sign followed by digits: the text of a negative integer. */
  predicate IsNegIntLiteral(s: string)
  {
    |s| >= 2 && s[0] == '-' && IsDigits(s[1..])
  }

  /**
   * re.match("^-\d+$", s): `$` also matches just before a final newline,
   * so "-12\n" matches as well as "-12".
   */
  predicate MatchesNegInt(s: string)
  {
    IsNegIntLiteral(s) || (|s| >= 1 && s[|s| - 1] == '\n' && IsNegIntLiteral(s[..|s| - 1]))
  }

  /** re.match("^esc_rand_str(-\d+)$", s). */
  predicate MatchesEscaped(s: string)
  {
    |s| >= |EscapeStr| && s[..|EscapeStr|] == EscapeStr && MatchesNegInt(s[|EscapeStr|..])
  }

  /** The text of the group (-\d+): the match without a final newline. */
  function NegIntGroup(s: string): (r: string)
    requires MatchesNegInt(s)
    ensures IsNegIntLiteral(r) && r <= s
  {
    if IsNegIntLiteral(s) then s else s[..|s| - 1]
  }

  /** What escape_vals does to one element. */
  function Escape(v: string): (r: string)
  {
    if MatchesNegInt(v) then EscapeStr + v else v
  }

  /** What unescape_vals does to one element. */
  function Unescape(v: string): (r: string)
  {
    if MatchesEscaped(v) then NegIntGroup(v[|EscapeStr|..]) else v
  }

  /** Escaped text never starts with a minus sign, so escaping twice is escaping once. */
  lemma EscapeIdempotent(v: string)
    ensures Escape(Escape(v)) == Escape(v)
  {
    if MatchesNegInt(v) {
      assert (EscapeStr + v)[0] == 'e';
      assert !MatchesNegInt(EscapeStr + v);
    }
  }

  /**
   * Unescaping undoes escaping exactly when the element is not already in
   * escaped form and, if it matches the negative-integer pattern, has no
   * final newline (which the group leaves out).
   */
  lemma RoundTrip(v: string)
    ensures Unescape(Escape(v)) == v <==>
      !MatchesEscaped(v) && (MatchesNegInt(v) ==> IsNegIntLiteral(v))
  {
    if MatchesNegInt(v) {
      var e := EscapeStr + v;
      assert e[..|EscapeStr|] == EscapeStr && e[|EscapeStr|..] == v;
      assert MatchesEscaped(e);
      assert v[0] == '-';
      assert !MatchesEscaped(v) by {
        if |v| >= |EscapeStr| {
          assert v[..|EscapeStr|][0] == '-';
        }
      }
      if !IsNegIntLiteral(v) {
        assert |NegIntGroup(v)| < |v|;
      }
    } else if MatchesEscaped(v) {
      assert |Unescape(v)| <= |v| - |EscapeStr|;
    }
  }

  /** The element that escaping leaves unchanged: unescaping it back is safe. */
  predicate SafeToEscape(v: string)
  {
    !MatchesEscaped(v) && (MatchesNegInt(v) ==> IsNegIntLiteral(v))
  }

  function EscapeAll(vals: seq<string>): (r: seq<string>)
    ensures |r| == |vals|
    ensures forall k :: 0 <= k < |vals| ==> r[k] == Escape(vals[k])
  {
    seq(|vals|, k requires 0 <= k < |vals| => Escape(vals[k]))
  }

  function UnescapeAll(vals: seq<string>): (r: seq<string>)
    ensures |r| == |vals|
    ensures forall k :: 0 <= k < |vals| ==> r[k] == Unescape(vals[k])
  {
    seq(|vals|, k requires 0 <= k < |vals| => Unescape(vals[k]))
  }

  /** unescape_vals(escape_vals(vals)) == vals when every element is safe to escape. */
  lemma RoundTripAll(vals: seq<string>)
    requires forall k :: 0 <= k < |vals| ==> SafeToEscape(vals[k])
    ensures UnescapeAll(EscapeAll(vals)) == vals
  {
    forall k | 0 <= k < |vals|
      ensures UnescapeAll(EscapeAll(vals))[k] == vals[k]
    {
      RoundTrip(vals[k]);
    }
  }

  /** escape_vals: rewrites the list in place and returns the same list. */
  method EscapeVals(vals: array<string>) returns (r: array<string>)
    modifies vals
    ensures r == vals
    ensures vals[..] == EscapeAll(old(vals[..]))
  {
    for index := 0 to vals.Length
      invariant forall k :: 0 <= k < index ==> vals[k] == Escape(old(vals[k]))
      invariant forall k :: index <= k < vals.Length ==> vals[k] == old(vals[k])
    {
      if MatchesNegInt(vals[index]) {
        vals[index] := EscapeStr + vals[index];
      }
    }
    r := vals;
  }

  /** unescape_vals: rewrites the list in place and returns the same list. */
  method UnescapeVals(vals: array<string>) returns (r: array<string>)
    modifies vals
    ensures r == vals
    ensures vals[..] == UnescapeAll(old(vals[..]))
  {
    for index := 0 to vals.Length
      invariant forall k :: 0 <= k < index ==> vals[k] == Unescape(old(vals[k]))
      invariant forall k :: index <= k < vals.Length ==> vals[k] == old(vals[k])
    {
      var val := vals[index];
      if MatchesEscaped(val) {
        vals[index] := NegIntGroup(val[|EscapeStr|..]);
      }
    }
    r := vals;
  }

  // ---------------------------------------------------------------------
  // Decimal text of integers ("%i" and str())

  function DigitChar(d: int): (ch: char)
    requires 0 <= d < 10
    ensures IsDigit(ch) && ch as int - '0' as int == d
  {
    "0123456789"[d]
  }

  function DigitValue(ch: char): (d: int)
    requires IsDigit(ch)
    ensures 0 <= d < 10
  {
    ch as int - '0' as int
  }

  function NatToString(n: nat): (r: string)
    ensures IsDigits(r)
    ensures r[0] == '0' ==> n == 0
    decreases n
  {
    if n < 10 then [DigitChar(n)] else NatToString(n / 10) + [DigitChar(n % 10)]
  }

  /**
   * The text str() writes for an integer: digits with no leading zero
   * (except "0" itself), or '-' and such digits of a non-zero number.
   */
  predicate IsIntText(s: string)
  {
    || (IsDigits(s) && (|s| == 1 || s[0] != '0'))
    || (IsNegIntLiteral(s) && s[1] != '0')
  }

  /** The decimal text of an integer, with a leading '-' when it is negative. */
  function IntToString(i: int): (r: string)
  {
    if i < 0 then "-" + NatToString(-i) else NatToString(i)
  }

  function ParseNat(s: string): nat
    requires IsDigits(s)
    decreases |s|
  {
    if |s| == 1 then DigitValue(s[0])
    else ParseNat(s[..|s| - 1]) * 10 + DigitValue(s[|s| - 1])
  }

  /** int(s) for the decimal text of an integer. */
  function ParseInt(s: string): int
    requires IsDigits(s) || IsNegIntLiteral(s)
  {
    if s[0] == '-' then 0 - ParseNat(s[1..]) else ParseNat(s)
  }

  lemma {:induction false} ParseNatToString(n: nat)
    ensures ParseNat(NatToString(n)) == n
    decreases n
  {
    if n >= 10 {
      ParseNatToString(n / 10);
      var s := NatToString(n);
      assert s[..|s| - 1] == NatToString(n / 10);
    }
  }

  /** Digits with a non-zero leading digit denote a positive number. */
  lemma {:induction false} LeadingDigitPositive(s: string)
    requires IsDigits(s) && s[0] != '0'
    ensures ParseNat(s) >= 1
    decreases |s|
  {
    if |s| > 1 {
      LeadingDigitPositive(s[..|s| - 1]);
    }
  }

  /** Digits without a leading zero are the decimal text of the number they denote. */
  lemma {:induction false} NatToStringParse(s: string)
    requires IsDigits(s) && (|s| == 1 || s[0] != '0')
    ensures NatToString(ParseNat(s)) == s
    decreases |s|
  {
    if |s| > 1 {
      var init := s[..|s| - 1];
      var d := DigitValue(s[|s| - 1]);
      NatToStringParse(init);
      LeadingDigitPositive(init);
      var n := ParseNat(s);
      assert n == ParseNat(init) * 10 + d;
      assert n / 10 == ParseNat(init) && n % 10 == d;
      assert s == init + [s[|s| - 1]];
    }
  }

  /** Integer text is exactly the text some integer is written as. */
  lemma IntTextParse(s: string)
    requires IsIntText(s)
    ensures IntToString(ParseInt(s)) == s
  {
    if IsNegIntLiteral(s) && s[1] != '0' {
      var t := s[1..];
      LeadingDigitPositive(t);
      NatToStringParse(t);
      assert s == "-" + t;
    } else {
      NatToStringParse(s);
    }
  }

  /** The text of an integer parses back to it, and is negative-int text exactly for negatives. */
  lemma ParseIntToString(i: int)
    ensures IsIntText(IntToString(i))
    ensures IsDigits(IntToString(i)) || IsNegIntLiteral(IntToString(i))
    ensures ParseInt(IntToString(i)) == i
    ensures MatchesNegInt(IntToString(i)) <==> i < 0
  {
    var s := IntToString(i);
    if i < 0 {
      assert s[1..] == NatToString(-i);
      ParseNatToString(-i);
    } else {
      ParseNatToString(i);
      assert IsDigit(s[0]) && IsDigit(s[|s| - 1]);
    }
  }

  // ---------------------------------------------------------------------
  // BBox and intersect_boxes

  /** The value of a BBox: corner (x, y) and size. */
  datatype Rect = Rect(x: int, y: int, width: int, height: int)

  /** The integer points of a box: [x, x + width) by [y, y + height). */
  predicate InRect(r: Rect, px: int, py: int)
  {
    r.x <= px < r.x + r.width && r.y <= py < r.y + r.height
  }

  /** The box name_str writes, read back: four integers separated by '_'. */
  function DecodeName(s: string): Option<Rect>
  {
    var parts := Split(s, '_');
    if |parts| == 4 && (forall k :: 0 <= k < 4 ==> IsDigits(parts[k]) || IsNegIntLiteral(parts[k]))
    then Some(Rect(ParseInt(parts[0]), ParseInt(parts[1]), ParseInt(parts[2]), ParseInt(parts[3])))
    else None
  }

  class BBox {
    var x: int
    var y: int
    var width: int
    var height: int

    constructor(x: int, y: int, width: int, height: int)
      ensures Value() == Rect(x, y, width, height)
    {
      this.x, this.y, this.width, this.height := x, y, width, height;
    }

    function Value(): Rect
      reads this
    {
      Rect(x, y, width, height)
    }

    /** name_str: "%i_%i_%i_%i"; it decodes back to the box. */
    function NameStr(): (r: string)
      reads this
      ensures DecodeName(r) == Some(Value())
      ensures Split(r, '_') == CropStr()[1..]
      ensures forall k :: 0 <= k < 4 ==> IsIntText(Split(r, '_')[k])
    {
      var parts := [IntToString(x), IntToString(y), IntToString(width), IntToString(height)];
      NameDecodes(x, y, width, height);
      Join(parts, '_')
    }

    /** crop_str: the --trans-crop-win option followed by the four numbers. */
    function CropStr(): (r: seq<string>)
      reads this
      ensures |r| == 5 && r[0] == "--trans-crop-win"
      ensures forall k :: 1 <= k < 5 ==> IsIntText(r[k])
      ensures forall k :: 1 <= k < 5 ==> IsDigits(r[k]) || IsNegIntLiteral(r[k])
      ensures ParseInt(r[1]) == x && ParseInt(r[2]) == y
      ensures ParseInt(r[3]) == width && ParseInt(r[4]) == height
    {
      ParseIntToString(x);
      ParseIntToString(y);
      ParseIntToString(width);
      ParseIntToString(height);
      ["--trans-crop-win", IntToString(x), IntToString(y), IntToString(width), IntToString(height)]
    }

    /**
     * expand(px, settings): fails when settings hold no "trans_left_image";
     * otherwise moves the corner out by px, clamped at 0, and widens both
     * sizes by 2 * px.
     */
    method Expand(px: int, settings: map<string, seq<string>>) returns (ok: bool)
      modifies this
      ensures ok <==> "trans_left_image" in settings
      ensures ok ==> Value() == Expanded(old(Value()), px)
      ensures !ok ==> Value() == old(Value())
    {
      if "trans_left_image" !in settings {
        return false;
      }
      x := x - px;
      y := y - px;
      width := width + 2 * px;
      height := height + 2 * px;
      if x < 0 {
        x := 0;
      }
      if y < 0 {
        y := 0;
      }
      ok := true;
    }
  }

  /** The four parts of a name are digit strings, possibly signed, free of '_'. */
  lemma NameParts(x: int, y: int, width: int, height: int)
    ensures var parts := [IntToString(x), IntToString(y), IntToString(width), IntToString(height)];
      forall k :: 0 <= k < 4 ==> '_' !in parts[k] && IsIntText(parts[k]) && (IsDigits(parts[k]) || IsNegIntLiteral(parts[k]))
  {
    ParseIntToString(x);
    ParseIntToString(y);
    ParseIntToString(width);
    ParseIntToString(height);
    var parts := [IntToString(x), IntToString(y), IntToString(width), IntToString(height)];
    forall k | 0 <= k < 4
      ensures '_' !in parts[k]
    {
      var p := parts[k];
      if IsDigits(p) {
        assert forall k' :: 0 <= k' < |p| ==> p[k'] != '_';
      } else {
        assert forall k' :: 1 <= k' < |p| ==> p[1..][k' - 1] == p[k'];
      }
    }
  }

  /** The name of a box splits into its four numbers, which parse back. */
  lemma NameDecodes(x: int, y: int, width: int, height: int)
    ensures var parts := [IntToString(x), IntToString(y), IntToString(width), IntToString(height)];
      && Split(Join(parts, '_'), '_') == parts
      && DecodeName(Join(parts, '_')) == Some(Rect(x, y, width, height))
  {
    var parts := [IntToString(x), IntToString(y), IntToString(width), IntToString(height)];
    NameParts(x, y, width, height);
    SplitJoin(parts, '_');
    ParseIntToString(x);
    ParseIntToString(y);
    ParseIntToString(width);
    ParseIntToString(height);
  }

  /** The value of a box after expand(px): the corner is kept non-negative. */
  function Expanded(r: Rect, px: int): (e: Rect)
    ensures e.x >= 0 && e.y >= 0
    ensures e.width == r.width + 2 * px && e.height == r.height + 2 * px
  {
    Rect(if r.x - px < 0 then 0 else r.x - px, if r.y - px < 0 then 0 else r.y - px,
         r.width + 2 * px, r.height + 2 * px)
  }

  /** Expanding a box with a non-negative corner by px >= 0 keeps every point of it. */
  lemma ExpandContains(r: Rect, px: int, qx: int, qy: int)
    requires r.x >= 0 && r.y >= 0 && px >= 0
    requires InRect(r, qx, qy)
    ensures InRect(Expanded(r, px), qx, qy)
  {
  }

  /** intersect_boxes: the overlap of two boxes, with sizes floored at 0. */
  function IntersectBoxes(a: Rect, b: Rect): (c: Rect)
    ensures c.width >= 0 && c.height >= 0
  {
    var xmin := Max(a.x, b.x);
    var xmax := Min(a.x + a.width, b.x + b.width);
    var ymin := Max(a.y, b.y);
    var ymax := Min(a.y + a.height, b.y + b.height);
    Rect(xmin, ymin, if xmax - xmin < 0 then 0 else xmax - xmin,
         if ymax - ymin < 0 then 0 else ymax - ymin)
  }

  function Max(a: int, b: int): int { if a >= b then a else b }
  function Min(a: int, b: int): int { if a <= b then a else b }

  /** A point is in the intersection exactly when it is in both boxes. */
  lemma IntersectPoints(a: Rect, b: Rect, px: int, py: int)
    ensures InRect(IntersectBoxes(a, b), px, py) <==> InRect(a, px, py) && InRect(b, px, py)
  {
  }

  lemma IntersectCommutes(a: Rect, b: Rect)
    ensures IntersectBoxes(a, b) == IntersectBoxes(b, a)
  {
  }

  /** A box of non-negative size intersected with itself is the same box. */
  lemma IntersectSelf(a: Rect)
    requires a.width >= 0 && a.height >= 0
    ensures IntersectBoxes(a, a) == a
  {
  }

  // ---------------------------------------------------------------------
  // get_settings

  /** The settings the lines define: each line with a ',' maps its first field to the rest. */
  function SettingsOf(lines: seq<string>): map<string, seq<string>>
  {
    if |lines| == 0 then map[]
    else
      var data := SettingsOf(lines[..|lines| - 1]);
      var line := lines[|lines| - 1];
      if ',' in line then
        var keywords := Split(line, ',');
        data[keywords[0] := keywords[1..]]
      else data
  }

  /** Line i sets the key `key`. */
  predicate Sets(lines: seq<string>, i: int, key: string)
    requires 0 <= i < |lines|
  {
    ',' in lines[i] && Split(lines[i], ',')[0] == key
  }

  /**
   * A key is defined exactly when some line sets it, and its value comes
   * from the last line that does.
   */
  lemma {:induction false} SettingsSpec(lines: seq<string>, key: string)
    ensures key in SettingsOf(lines) <==> exists i :: 0 <= i < |lines| && Sets(lines, i, key)
    ensures key in SettingsOf(lines) ==>
      exists i :: 0 <= i < |lines| && Sets(lines, i, key) &&
        SettingsOf(lines)[key] == Split(lines[i], ',')[1..] &&
        forall i' :: i < i' < |lines| ==> !Sets(lines, i', key)
  {
    if |lines| > 0 {
      var init := lines[..|lines| - 1];
      SettingsSpec(init, key);
      assert forall i :: 0 <= i < |init| ==> (Sets(init, i, key) <==> Sets(lines, i, key));
      var n := |lines| - 1;
      if !Sets(lines, n, key) && key in SettingsOf(lines) {
        var i :| 0 <= i < |init| && Sets(init, i, key) &&
          SettingsOf(init)[key] == Split(init[i], ',')[1..] &&
          forall i' :: i < i' < |init| ==> !Sets(init, i', key);
        assert Sets(lines, i, key);
      }
    }
  }

  /** The stdout-parsing loop of get_settings. */
  method ParseSettings(stdout: string) returns (data: map<string, seq<string>>)
    ensures data == SettingsOf(Split(stdout, '\n'))
  {
    var lines := Split(stdout, '\n');
    data := map[];
    for i := 0 to |lines|
      invariant data == SettingsOf(lines[..i])
    {
      var line := lines[i];
      assert lines[..i + 1][..i] == lines[..i];
      if ',' in line {
        var keywords := Split(line, ',');
        data := data[keywords[0] := keywords[1..]];
      }
    }
    assert lines[..|lines|] == lines;
  }
}
