/**
 The static depth legend of the map: a header followed by one HTML paragraph
 per colour bucket, shallowest first, joined into one string. Each paragraph's
 CSS class (which selects its swatch colour) and label name the thresholds of
 the colour chain.
 */
module Legend {
  import opened DepthColour

  /** One legend paragraph: its CSS class and its visible text. */
  datatype Row = Row(cssClass: string, text: string)

  const Header: string := "<h1>Depth</h1>"

  /** The legend's bucket rows, in the order they are listed. */
  const Rows: seq<Row> := [
    Row("l10", "Less than 10"),
    Row("l30", "Between 10 and 30"),
    Row("l50", "Between 30 and 50"),
    Row("l70", "Between 50 and 70"),
    Row("l90", "Between 70 and 90"),
    Row("g90", "Greater than 90")
  ]

  function RenderRow(r: Row): string
  {
    "<p class='" + r.cssClass + "'>" + r.text + "</p>"
  }

  /** The legend's pieces: the header, then each row rendered. */
  function Items(): (items: seq<string>)
    ensures |items| == 1 + |Rows|
    ensures items[0] == Header
    ensures forall i :: 0 <= i < |Rows| ==> items[i + 1] == RenderRow(Rows[i])
  {
    [Header] + seq(|Rows|, i requires 0 <= i < |Rows| => RenderRow(Rows[i]))
  }

  /** `Array.prototype.join("")`: concatenation without separator. */
  function Join(parts: seq<string>): (s: string)
    ensures parts != [] ==> parts[0] <= s
  {
    if parts == [] then "" else parts[0] + Join(parts[1..])
  }

  /** Joining two lists of pieces is joining each and concatenating. */
  lemma {:induction false} JoinAppend(a: seq<string>, b: seq<string>)
    ensures Join(a + b) == Join(a) + Join(b)
  {
    if a == [] {
      assert a + b == b;
    } else {
      assert (a + b)[1..] == a[1..] + b;
      JoinAppend(a[1..], b);
    }
  }

  /** Every piece appears in the joined string, between the pieces before and after it. */
  lemma JoinSplit(parts: seq<string>, i: nat)
    requires i < |parts|
    ensures Join(parts) == Join(parts[..i]) + parts[i] + Join(parts[i + 1..])
  {
    var before, rest, after := parts[..i], parts[i..], parts[i + 1..];
    assert parts == before + rest;
    JoinAppend(before, rest);
    assert rest[1..] == after;
    assert Join(rest) == parts[i] + Join(after);
    calc {
      Join(parts);
      Join(before) + Join(rest);
      Join(before) + (parts[i] + Join(after));
      Join(before) + parts[i] + Join(after);
    }
  }

  /** The legend's inner HTML. */
  function Html(): (s: string)
    ensures Header <= s
  {
    Join(Items())
  }

  /**
   The HTML holds every bucket row in its place: row `k` follows the header
   and the rows before it, and precedes the rows after it.
   */
  lemma HtmlRowInPlace(k: nat)
    requires k < |Rows|
    ensures Html() == Join(Items()[..k + 1]) + RenderRow(Rows[k]) + Join(Items()[k + 2..])
  {
    JoinSplit(Items(), k + 1);
  }

  /** Row 0 rendered as the page script writes it. */
  lemma RenderedL10()
    ensures RenderRow(Rows[0]) == "<p class='l10'>Less than 10</p>"
  {
    assert Rows[0] == Row("l10", "Less than 10");
  }

  /** Row 1 rendered as the page script writes it. */
  lemma RenderedL30()
    ensures RenderRow(Rows[1]) == "<p class='l30'>Between 10 and 30</p>"
  {
    assert Rows[1] == Row("l30", "Between 10 and 30");
  }

  /** Row 2 rendered as the page script writes it. */
  lemma RenderedL50()
    ensures RenderRow(Rows[2]) == "<p class='l50'>Between 30 and 50</p>"
  {
    assert Rows[2] == Row("l50", "Between 30 and 50");
  }

  /** Row 3 rendered as the page script writes it. */
  lemma RenderedL70()
    ensures RenderRow(Rows[3]) == "<p class='l70'>Between 50 and 70</p>"
  {
    assert Rows[3] == Row("l70", "Between 50 and 70");
  }

  /** Row 4 rendered as the page script writes it. */
  lemma RenderedL90()
    ensures RenderRow(Rows[4]) == "<p class='l90'>Between 70 and 90</p>"
  {
    assert Rows[4] == Row("l90", "Between 70 and 90");
  }

  /** Row 5 rendered as the page script writes it. */
  lemma RenderedG90()
    ensures RenderRow(Rows[5]) == "<p class='g90'>Greater than 90</p>"
  {
    assert Rows[5] == Row("g90", "Greater than 90");
  }

  /** The legend's pieces are exactly the seven strings of the page script. */
  lemma ItemsVerbatim()
    ensures Items() == [
      "<h1>Depth</h1>",
      "<p class='l10'>Less than 10</p>",
      "<p class='l30'>Between 10 and 30</p>",
      "<p class='l50'>Between 30 and 50</p>",
      "<p class='l70'>Between 50 and 70</p>",
      "<p class='l90'>Between 70 and 90</p>",
      "<p class='g90'>Greater than 90</p>"
    ]
  {
    RenderedL10();
    RenderedL30();
    RenderedL50();
    RenderedL70();
    RenderedL90();
    RenderedG90();
  }

  /** Decimal digits of a natural number, most significant first. */
  function ShowNat(n: nat): string
  {
    if n < 10 then [Digit(n)] else ShowNat(n / 10) + [Digit(n % 10)]
  }

  function Digit(d: nat): (c: char)
    requires d < 10
    ensures '0' <= c <= '9'
  {
    ['0', '1', '2', '3', '4', '5', '6', '7', '8', '9'][d]
  }

  /**
   The row that describes bucket `k` of the colour chain: class `lT` and an
   upper-bound label for every bucket with an upper threshold `T`, class `gT`
   and a lower-bound label for the last one.
   */
  function ExpectedRow(k: nat): Row
    requires k <= |Thresholds|
  {
    if k == 0 then
      Row("l" + ShowNat(Thresholds[0]), "Less than " + ShowNat(Thresholds[0]))
    else if k == |Thresholds| then
      Row("g" + ShowNat(Thresholds[k - 1]), "Greater than " + ShowNat(Thresholds[k - 1]))
    else
      Row("l" + ShowNat(Thresholds[k]),
          "Between " + ShowNat(Thresholds[k - 1]) + " and " + ShowNat(Thresholds[k]))
  }

  /** The legend row of a marker colour. */
  function RowFor(c: Colour): (r: Row)
    ensures r in Rows
  {
    Rows[Rank(c)]
  }

  /** The thresholds as the legend spells them. */
  lemma ShowThresholds()
    ensures ShowNat(Thresholds[0]) == "10" && ShowNat(Thresholds[1]) == "30"
    ensures ShowNat(Thresholds[2]) == "50" && ShowNat(Thresholds[3]) == "70"
    ensures ShowNat(Thresholds[4]) == "90"
  {
    assert ShowNat(1) == "1" && ShowNat(3) == "3" && ShowNat(5) == "5";
    assert ShowNat(7) == "7" && ShowNat(9) == "9";
  }

  /** Each colour's legend row names the thresholds of that colour's bucket. */
  lemma RowDescribesBucket(c: Colour)
    ensures RowFor(c) == ExpectedRow(Rank(c))
  {
    ShowThresholds();
    match c
    case Blue =>
      assert "l" + "10" == "l10" && "Less than " + "10" == "Less than 10";
    case Cyan =>
      assert "l" + "30" == "l30" && "Between " + "10" + " and " + "30" == "Between 10 and 30";
    case Green =>
      assert "l" + "50" == "l50" && "Between " + "30" + " and " + "50" == "Between 30 and 50";
    case Yellow =>
      assert "l" + "70" == "l70" && "Between " + "50" + " and " + "70" == "Between 50 and 70";
    case Orange =>
      assert "l" + "90" == "l90" && "Between " + "70" + " and " + "90" == "Between 70 and 90";
    case Red =>
      assert "g" + "90" == "g90" && "Greater than " + "90" == "Greater than 90";
  }

  /**
   The legend has one row per colour bucket, in ascending-depth order: the
   colours and the rows correspond one to one.
   */
  lemma LegendMatchesBuckets()
    ensures |Rows| == |Thresholds| + 1
    ensures forall c :: RowFor(c) == ExpectedRow(Rank(c))
    ensures forall c1, c2 :: RowFor(c1) == RowFor(c2) ==> c1 == c2
  {
    forall c ensures RowFor(c) == ExpectedRow(Rank(c)) {
      RowDescribesBucket(c);
    }
    forall c1, c2 | RowFor(c1) == RowFor(c2) ensures c1 == c2 {
      assert Rows[Rank(c1)].cssClass == Rows[Rank(c2)].cssClass;
      assert ColourAt(Rank(c1)) == c1 && ColourAt(Rank(c2)) == c2;
    }
  }
}
