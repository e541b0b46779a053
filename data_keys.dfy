/** The per-column lookup key of the body renderer
    (Reporter/Tools/NPOIExportTool.cs, lines 354-366 and 387). Before the rows
    are rendered, each column's data name `n` is renamed to the key
    `"<column number>___<n>"`; for every cell the property name is then read
    back by splitting the key on `"___"`, dropping empty pieces, and taking the
    second piece.

    Read back this way, a data name that contains `"___"` resolves to its first
    part, and an empty data name has no second piece at all (the index is out
    of range). `ParseKey` reads a key back exactly; the body renderer of this
    model looks the property up under the column's own data name, which is
    what `ParseKey` recovers. */
module DataKeys {
  import opened Grid

  const Sep: string := "___"

  predicate IsDigit(c: char) {
    '0' <= c <= '9'
  }

  predicate AllDigits(s: string) {
    forall i | 0 <= i < |s| :: IsDigit(s[i])
  }

  function DigitChar(d: nat): (c: char)
    requires d < 10
    ensures IsDigit(c)
  {
    ('0' as int + d) as char
  }

  /** The decimal text of a column number, as `string.Format` writes it. */
  function Decimal(k: nat): (s: string)
    ensures |s| >= 1 && AllDigits(s)
  {
    if k < 10 then [DigitChar(k)] else Decimal(k / 10) + [DigitChar(k % 10)]
  }

  /** The key a column is renamed to. */
  function Key(k: nat, name: string): string {
    Decimal(k) + Sep + name
  }

  /** `"___"` starts at position `i` of `s`. */
  predicate SepAt(s: string, i: int) {
    0 <= i && i + 3 <= |s| && s[i] == '_' && s[i + 1] == '_' && s[i + 2] == '_'
  }

  predicate NoSep(s: string) {
    forall i | 0 <= i < |s| :: !SepAt(s, i)
  }

  // ---------------------------------------------------------------------------
  // As written: split on the separator, drop empty pieces, take the second

  /** The pieces of `s` between separators, scanning left to right; `cur` is
      the piece read so far. */
  function Pieces(s: string, cur: string): seq<string>
    decreases |s|
  {
    if s == [] then [cur]
    else if SepAt(s, 0) then [cur] + Pieces(s[3..], "")
    else Pieces(s[1..], cur + [s[0]])
  }

  function NonEmpty(parts: seq<string>): (r: seq<string>)
    ensures |r| <= |parts| && forall i | 0 <= i < |r| :: r[i] != []
  {
    if parts == [] then []
    else NonEmpty(parts[..|parts| - 1]) + if parts[|parts| - 1] == [] then [] else [parts[|parts| - 1]]
  }

  /** The name line 387 looks up for a key: `None` where indexing the second
      piece throws. */
  function PureNameAsWritten(key: string): (r: Option<string>)
    ensures r.Some? ==> r.value != []
  {
    var parts := NonEmpty(Pieces(key, ""));
    if |parts| < 2 then None else Some(parts[1])
  }

  lemma {:induction false} PiecesNoSep(s: string, cur: string)
    requires NoSep(s)
    ensures Pieces(s, cur) == [cur + s]
    decreases |s|
  {
    if s != [] {
      assert !SepAt(s, 0);
      assert NoSep(s[1..]) by {
        forall i | 0 <= i < |s[1..]| ensures !SepAt(s[1..], i) {
          assert !SepAt(s, i + 1);
        }
      }
      PiecesNoSep(s[1..], cur + [s[0]]);
      assert cur + [s[0]] + s[1..] == cur + s;
    } else {
      assert cur + s == cur;
    }
  }

  lemma {:induction false} PiecesDigits(d: string, rest: string, cur: string)
    requires AllDigits(d)
    ensures Pieces(d + rest, cur) == Pieces(rest, cur + d)
    decreases |d|
  {
    if d == [] {
      assert d + rest == rest && cur + d == cur;
    } else {
      assert (d + rest)[0] == d[0] && !SepAt(d + rest, 0);
      assert (d + rest)[1..] == d[1..] + rest;
      PiecesDigits(d[1..], rest, cur + [d[0]]);
      assert cur + [d[0]] + d[1..] == cur + d;
    }
  }

  /** The pieces of a key: its column number, then the pieces of the name. */
  lemma KeyPieces(k: nat, name: string)
    ensures Pieces(Key(k, name), "") == [Decimal(k)] + Pieces(name, "")
  {
    PiecesDigits(Decimal(k), Sep + name, "");
    assert Decimal(k) + Sep + name == Decimal(k) + (Sep + name);
    var t := Sep + name;
    assert |t| >= 3 && t[0] == '_' && t[1] == '_' && t[2] == '_';
    assert SepAt(t, 0) && t[3..] == name;
    assert Pieces(t, "" + Decimal(k)) == ["" + Decimal(k)] + Pieces(name, "");
    assert "" + Decimal(k) == Decimal(k);
  }

  /** For an ordinary name (not empty, no `"___"` inside) line 387 does find
      the data name. */
  lemma AsWrittenOrdinaryName(k: nat, name: string)
    requires name != [] && NoSep(name)
    ensures PureNameAsWritten(Key(k, name)) == Some(name)
  {
    KeyPieces(k, name);
    PiecesNoSep(name, "");
    assert "" + name == name;
    assert [Decimal(k)] + [name] == [Decimal(k), name];
    assert NonEmpty([Decimal(k), name]) == [Decimal(k), name] by {
      assert [Decimal(k), name][..1] == [Decimal(k)];
      assert NonEmpty([Decimal(k)]) == [Decimal(k)] by {
        assert [Decimal(k)][..0] == [];
      }
    }
  }

  /** Where line 387 goes wrong: a name holding `"___"` resolves to its first
      part, and an empty name has no second piece. */
  lemma AsWrittenCounterexamples()
    ensures PureNameAsWritten(Key(0, "a___b")) == Some("a")
    ensures PureNameAsWritten(Key(0, "")) == None
  {
    assert Decimal(0) == "0";
    KeyPieces(0, "a___b");
    SplitAB();
    assert [Decimal(0)] + ["a", "b"] == ["0", "a", "b"];
    NonEmptyOfKeyAB();
    KeyPieces(0, "");
    assert Pieces("", "") == [""];
    assert NonEmpty(["0", ""]) == ["0"] by {
      assert ["0", ""][..1] == ["0"] && ["0"][..0] == [];
    }
  }

  lemma SplitAB()
    ensures Pieces("a___b", "") == ["a", "b"]
  {
    var s := "a___b";
    assert !SepAt(s, 0) && s[1..] == "___b";
    assert Pieces(s, "") == Pieces("___b", "" + "a");
    assert "" + "a" == "a";
    var t := "___b";
    assert SepAt(t, 0) && t[3..] == "b";
    assert Pieces(t, "a") == ["a"] + Pieces("b", "");
    assert NoSep("b");
    PiecesNoSep("b", "");
    assert "" + "b" == "b";
  }

  lemma NonEmptyOfKeyAB()
    ensures NonEmpty(["0", "a", "b"]) == ["0", "a", "b"]
  {
    var parts := ["0", "a", "b"];
    assert parts[..2] == ["0", "a"] && ["0", "a"][..1] == ["0"] && ["0"][..0] == [];
    assert NonEmpty(["0"]) == ["0"];
    assert NonEmpty(["0", "a"]) == ["0", "a"];
  }

  // ---------------------------------------------------------------------------
  // Corrected: read the column number, then the separator, then the name

  function LeadingDigits(s: string): (n: nat)
    ensures n <= |s|
  {
    if s == [] || !IsDigit(s[0]) then 0 else 1 + LeadingDigits(s[1..])
  }

  function DecimalValue(s: string): nat
    requires AllDigits(s)
  {
    if s == [] then 0 else 10 * DecimalValue(s[..|s| - 1]) + (s[|s| - 1] as int - '0' as int)
  }

  /** The column number and the data name of a key, or `None` when the text is
      not a key. */
  function ParseKey(key: string): Option<(nat, string)> {
    var n := LeadingDigits(key);
    if n == 0 || !SepAt(key, n) then None
    else
      assert AllDigits(key[..n]) by { LeadingDigitsAreDigits(key); }
      Some((DecimalValue(key[..n]), key[n + 3..]))
  }

  lemma {:induction false} LeadingDigitsAreDigits(s: string)
    ensures AllDigits(s[..LeadingDigits(s)])
    decreases |s|
  {
    if s != [] && IsDigit(s[0]) {
      LeadingDigitsAreDigits(s[1..]);
      assert s[..LeadingDigits(s)] == [s[0]] + s[1..][..LeadingDigits(s[1..])];
    }
  }

  lemma {:induction false} LeadingDigitsOf(d: string, rest: string)
    requires AllDigits(d) && (rest == [] || !IsDigit(rest[0]))
    ensures LeadingDigits(d + rest) == |d|
    decreases |d|
  {
    if d == [] {
      assert d + rest == rest;
    } else {
      assert (d + rest)[1..] == d[1..] + rest;
      LeadingDigitsOf(d[1..], rest);
    }
  }

  lemma {:induction false} DecimalRoundTrip(k: nat)
    ensures DecimalValue(Decimal(k)) == k
  {
    if k >= 10 {
      DecimalRoundTrip(k / 10);
      var s := Decimal(k);
      assert s[..|s| - 1] == Decimal(k / 10);
    }
  }

  /** The corrected reading recovers exactly the column number and the data
      name, for every name, including empty ones and ones holding `"___"`. */
  lemma ParseKeyRoundTrip(k: nat, name: string)
    ensures ParseKey(Key(k, name)) == Some((k, name))
  {
    var key := Key(k, name);
    var d := Decimal(k);
    assert key == d + (Sep + name);
    LeadingDigitsOf(d, Sep + name);
    assert key[..|d|] == d;
    assert key[|d|..] == Sep + name;
    assert SepAt(key, |d|);
    assert key[|d| + 3..] == name;
    DecimalRoundTrip(k);
  }

  /** Different columns have different keys, even under the same name. */
  lemma KeysDistinct(k1: nat, k2: nat, n1: string, n2: string)
    requires Key(k1, n1) == Key(k2, n2)
    ensures k1 == k2 && n1 == n2
  {
    ParseKeyRoundTrip(k1, n1);
    ParseKeyRoundTrip(k2, n2);
  }
}
