/**
 * The display half of the program: from the decoded observations to the
 * coloured lines it prints. Each line is a sequence of spans, a text with the
 * colour it is printed in; the line break that ends each line is implicit.
 */
module Presenter {
  import opened Wrappers
  import opened GoInt

  /** The `imperial` block of one observation, as far as the report uses it. */
  datatype Imperial = Imperial(temp: int, dewpt: int, windChill: int, windSpeed: int, windGust: int)

  /** One element of the response's `observations` array, as far as the report uses it. */
  datatype Observation = Observation(
    stationId: string,
    obsTimeLocal: string,
    winddir: int,
    humidity: int,
    imperial: Imperial)

  /** Labels are cyan, the header's values yellow, the other values green, red or high-intensity blue. */
  datatype Colour = Cyan | Yellow | Green | Red | HiBlue

  datatype Span = Span(colour: Colour, text: string)

  type Line = seq<Span>

  /** Go's run-time error for an index outside a slice. */
  datatype Panic = IndexOutOfRange(index: int, length: nat)

  /**
   * The outcome of one run: every line printed, or the lines printed before a
   * panic, the last of them cut short where the panic struck.
   */
  datatype Run = Finished(lines: seq<Line>) | Panicked(lines: seq<Line>, panic: Panic)

  const Degree: string := "\U{B0}"

  /** The sixteen compass points clockwise from north, with north repeated at the end. */
  const CompassDirs: seq<string> :=
    ["N", "NNE", "NE", "ENE", "E", "ESE", "SE", "SSE", "S", "SSW", "SW", "WSW", "W", "WNW", "NW", "NNW", "N"]

  const HeaderLead: string := "Current Conditions for "
  const CurrentLabel: string := "Current:    "
  const FeelsLikeLabel: string := "Feels Like: "
  const DewPointLabel: string := "Dew Point:  "
  const HumidityLabel: string := "Humidity:   "
  const WindLabel: string := "Wind:       "

  // ---------------------------------------------------------------------------
  // Derived values

  /**
   * Degrees Fahrenheit to degrees Celsius, `((f - 32) * 5) / 9` in Go integer
   * arithmetic: the exact value 5(f - 32)/9 truncated toward zero, so rounded
   * down above freezing and up below it.
   */
  function Celsius(f: int): (c: int)
    ensures f >= 32 ==> 9 * c <= 5 * (f - 32) < 9 * c + 9
    ensures f < 32 ==> 9 * c - 9 < 5 * (f - 32) <= 9 * c
  {
    Quo((f - 32) * 5, 9)
  }

  /** Warmer never reads colder. */
  lemma CelsiusMonotonic(f1: int, f2: int)
    requires f1 <= f2
    ensures Celsius(f1) <= Celsius(f2)
  {
    QuoMonotonic((f1 - 32) * 5, (f2 - 32) * 5, 9);
  }

  /** Truncation makes the conversion symmetric about freezing point. */
  lemma CelsiusSymmetric(d: int)
    ensures Celsius(32 - d) == -Celsius(32 + d)
  {
    QuoNegate(d * 5, 9);
  }

  /** Values the conversion is known to give; 0 °F is -17 °C, where floor division would give -18. */
  lemma CelsiusSamples()
    ensures Celsius(32) == 0 && Celsius(212) == 100 && Celsius(98) == 36
    ensures Celsius(0) == -17 && ((0 - 32) * 5) / 9 == -18
    ensures Celsius(-40) == -40
  {
  }

  /**
   * The colour of a temperature-like value, chosen by the current temperature:
   * red above 80 °F, green strictly between 60 °F and 80 °F, high-intensity
   * blue otherwise, which takes in exactly 60 °F and exactly 80 °F.
   */
  function TempColour(t: int): (r: Colour)
    ensures r == Red <==> t > 80
    ensures r == Green <==> 60 < t < 80
    ensures r == HiBlue <==> t <= 60 || t == 80
  {
    if t > 80 then Red
    else if 60 < t && t < 80 then Green
    else HiBlue
  }

  lemma TempColourBoundaries()
    ensures TempColour(80) == HiBlue && TempColour(81) == Red
    ensures TempColour(60) == HiBlue && TempColour(61) == Green
  {
  }

  /**
   * `winddir / 22` in Go: the 22-degree sector the direction falls in,
   * counting from zero in both directions because the division truncates.
   */
  function CompassIndex(w: int): (i: int)
    ensures w >= 0 ==> 22 * i <= w < 22 * i + 22
    ensures w < 0 ==> 22 * i - 22 < w <= 22 * i
  {
    Quo(w, 22)
  }

  /**
   * The compass label for a wind direction, or Go's panic when the sector
   * index falls outside the seventeen-entry table.
   */
  function CompassLabel(w: int): (r: Result<string, Panic>)
    ensures r.Ok? <==> -21 <= w <= 373
    ensures r.Ok? ==> r.value in CompassDirs
    ensures r.Err? ==> r.error == IndexOutOfRange(CompassIndex(w), 17)
  {
    var i := CompassIndex(w);
    if 0 <= i < |CompassDirs| then Ok(CompassDirs[i]) else Err(IndexOutOfRange(i, |CompassDirs|))
  }

  /** Every direction the weather service reports finds a label: the table is never overrun. */
  lemma CompassTotalOnDegrees(w: int)
    requires 0 <= w <= 359
    ensures 0 <= CompassIndex(w) <= 16
    ensures CompassLabel(w) == Ok(CompassDirs[CompassIndex(w)])
  {
  }

  /**
   * North is shown for the first sector and for the last, short one that
   * the repeated table entry covers, and for nothing else.
   */
  lemma CompassNorth(w: int)
    ensures CompassLabel(w) == Ok("N") <==> -21 <= w <= 21 || 352 <= w <= 373
  {
    var i := CompassIndex(w);
    if 1 <= i <= 15 {
      assert CompassDirs[i] != "N" by {
        assert CompassDirs[i] in CompassDirs[1..16];
      }
    }
  }

  lemma CompassSamples()
    ensures CompassLabel(0) == Ok("N") && CompassLabel(45) == Ok("NE") && CompassLabel(90) == Ok("E")
    ensures CompassLabel(359) == Ok("N") && CompassLabel(374) == Err(IndexOutOfRange(17, 17))
  {
  }

  // ---------------------------------------------------------------------------
  // The report

  /** "<f>°F (<c>°C)": a Fahrenheit reading and its Celsius value. */
  function TempText(f: int): string
  {
    FormatInt(f) + Degree + "F (" + FormatInt(Celsius(f)) + Degree + "C)"
  }

  /** The printed temperature starts with the Fahrenheit number, then a degree sign. */
  lemma TempTextStart(f: int)
    ensures |TempText(f)| > |FormatInt(f)|
    ensures TempText(f)[..|FormatInt(f)|] == FormatInt(f)
    ensures TempText(f)[|FormatInt(f)|] == '\U{B0}'
  {
    var s := FormatInt(f);
    var t := TempText(f);
    assert t == s + Degree + "F (" + FormatInt(Celsius(f)) + Degree + "C)";
    assert forall i :: 0 <= i < |s| ==> t[i] == s[i];
  }

  /** The printed temperature determines the reading: two readings never print alike. */
  lemma TempTextInjective(f1: int, f2: int)
    requires TempText(f1) == TempText(f2)
    ensures f1 == f2
  {
    var s1, s2 := FormatInt(f1), FormatInt(f2);
    TempTextStart(f1);
    TempTextStart(f2);
    if |s1| < |s2| {
      // the degree sign after the shorter number faces a digit of the longer one
      assert TempText(f2)[..|s2|][|s1|] == s2[|s1|];
      FormatIntChar(f2, |s1|);
    } else if |s2| < |s1| {
      assert TempText(f1)[..|s1|][|s2|] == s1[|s2|];
      FormatIntChar(f1, |s2|);
    } else {
      FormatIntInjective(f1, f2);
    }
  }

  function HeaderLine(o: Observation): Line
  {
    [Span(Cyan, HeaderLead), Span(Yellow, o.stationId), Span(Cyan, " at "), Span(Yellow, o.obsTimeLocal), Span(Cyan, " are:")]
  }

  function CurrentLine(o: Observation): Line
  {
    [Span(Cyan, CurrentLabel), Span(TempColour(o.imperial.temp), TempText(o.imperial.temp))]
  }

  /** The wind chill, coloured by the current temperature. */
  function FeelsLikeLine(o: Observation): Line
  {
    [Span(Cyan, FeelsLikeLabel), Span(TempColour(o.imperial.temp), TempText(o.imperial.windChill))]
  }

  function DewPointLine(o: Observation): Line
  {
    [Span(Cyan, DewPointLabel), Span(Green, TempText(o.imperial.dewpt))]
  }

  function HumidityLine(o: Observation): Line
  {
    [Span(Cyan, HumidityLabel), Span(Green, FormatInt(o.humidity) + "%")]
  }

  /** "<label>(<deg>°) @ <speed>-<gust> mph". */
  function WindLine(o: Observation, dir: string): Line
  {
    [Span(Cyan, WindLabel),
     Span(Green, dir + "(" + FormatInt(o.winddir) + Degree + ") @ "
                 + FormatInt(o.imperial.windSpeed) + "-" + FormatInt(o.imperial.windGust) + " mph")]
  }

  function LinesBeforeWind(o: Observation): seq<Line>
  {
    [HeaderLine(o), CurrentLine(o), FeelsLikeLine(o), DewPointLine(o), HumidityLine(o)]
  }

  /**
   * The whole run after decoding: the report on the first observation, or
   * the panic of indexing an empty observation list (after the header's
   * opening words) or of a wind direction past the compass table (after the
   * wind label).
   */
  function Render(observations: seq<Observation>): (run: Run)
    ensures observations == [] ==> run == Panicked([[Span(Cyan, HeaderLead)]], IndexOutOfRange(0, 0))
    ensures observations != [] ==> (run.Finished? <==> -21 <= observations[0].winddir <= 373)
    ensures run.Finished? ==> |run.lines| == 6
    ensures run.Finished? ==>
      && observations != []
      && run.lines == LinesBeforeWind(observations[0]) + [WindLine(observations[0], CompassDirs[CompassIndex(observations[0].winddir)])]
    ensures run.Panicked? && observations != [] ==>
      && |run.lines| == 6
      && run.lines[..5] == LinesBeforeWind(observations[0])
      && run.lines[5] == [Span(Cyan, WindLabel)]
      && run.panic == IndexOutOfRange(CompassIndex(observations[0].winddir), 17)
  {
    if observations == [] then
      Panicked([[Span(Cyan, HeaderLead)]], IndexOutOfRange(0, 0))
    else
      var o := observations[0];
      match CompassLabel(o.winddir)
      case Err(p) => Panicked(LinesBeforeWind(o) + [[Span(Cyan, WindLabel)]], p)
      case Ok(dir) => Finished(LinesBeforeWind(o) + [WindLine(o, dir)])
  }

  /** The text of a line, colours aside: its spans' texts one after another. */
  function Text(line: Line): string
  {
    if line == [] then "" else Text(line[..|line| - 1]) + line[|line| - 1].text
  }

  lemma TextSnoc(line: Line, x: Span)
    ensures Text(line + [x]) == Text(line) + x.text
  {
    assert (line + [x])[..|line|] == line;
  }

  lemma TextOfPair(a: Span, b: Span)
    ensures Text([a, b]) == a.text + b.text
  {
    TextSnoc([], a);
    assert [] + [a] == [a];
    TextSnoc([a], b);
    assert [a] + [b] == [a, b];
  }

  lemma HeaderText(o: Observation)
    ensures Text(HeaderLine(o)) == HeaderLead + o.stationId + " at " + o.obsTimeLocal + " are:"
  {
    var line := HeaderLine(o);
    TextOfPair(line[0], line[1]);
    TextSnoc(line[..2], line[2]);
    assert line[..2] + [line[2]] == line[..3];
    TextSnoc(line[..3], line[3]);
    assert line[..3] + [line[3]] == line[..4];
    TextSnoc(line[..4], line[4]);
    assert line[..4] + [line[4]] == line;
  }

  /**
   * The report's layout: header, current, feels like, dew point, humidity and
   * wind, each temperature in Fahrenheit with its Celsius value by the same
   * conversion, the two temperature lines coloured by the current
   * temperature, the other values green.
   */
  lemma RenderLayout(observations: seq<Observation>)
    requires observations != [] && -21 <= observations[0].winddir <= 373
    ensures var o, run := observations[0], Render(observations);
      var t := o.imperial;
      && run.Finished?
      && Text(run.lines[0]) == HeaderLead + o.stationId + " at " + o.obsTimeLocal + " are:"
      && Text(run.lines[1]) == CurrentLabel + TempText(t.temp)
      && Text(run.lines[2]) == FeelsLikeLabel + TempText(t.windChill)
      && Text(run.lines[3]) == DewPointLabel + TempText(t.dewpt)
      && Text(run.lines[4]) == HumidityLabel + (FormatInt(o.humidity) + "%")
      && Text(run.lines[5]) == WindLabel + (CompassDirs[CompassIndex(o.winddir)] + "(" + FormatInt(o.winddir) + Degree + ") @ "
                               + FormatInt(t.windSpeed) + "-" + FormatInt(t.windGust) + " mph")
      && run.lines[1][1].colour == TempColour(t.temp)
      && run.lines[2][1].colour == TempColour(t.temp)
      && run.lines[3][1].colour == Green && run.lines[4][1].colour == Green && run.lines[5][1].colour == Green
  {
    var o := observations[0];
    var run := Render(observations);
    HeaderText(o);
    var l1, l2, l3, l4 := CurrentLine(o), FeelsLikeLine(o), DewPointLine(o), HumidityLine(o);
    TextOfPair(l1[0], l1[1]);
    TextOfPair(l2[0], l2[1]);
    TextOfPair(l3[0], l3[1]);
    TextOfPair(l4[0], l4[1]);
    var l5 := WindLine(o, CompassDirs[CompassIndex(o.winddir)]);
    TextOfPair(l5[0], l5[1]);
    assert run.lines == [HeaderLine(o), l1, l2, l3, l4, l5];
  }

  /** A line that opens with a cyan label twelve characters wide. */
  predicate Labelled(line: Line) {
    |line| > 0 && line[0].colour == Cyan && |line[0].text| == 12
  }

  lemma BeforeWindLabelled(o: Observation)
    ensures forall k :: 1 <= k < 5 ==> Labelled(LinesBeforeWind(o)[k])
  {
    var before := LinesBeforeWind(o);
    forall k | 1 <= k < 5
      ensures Labelled(before[k])
    {
    }
  }

  lemma AppendLabelled(before: seq<Line>, last: Line)
    requires |before| == 5 && Labelled(last)
    requires forall k :: 1 <= k < 5 ==> Labelled(before[k])
    ensures forall k :: 1 <= k < 6 ==> Labelled((before + [last])[k])
  {
    var lines := before + [last];
    forall k | 1 <= k < 6
      ensures Labelled(lines[k])
    {
      if k < 5 {
        assert lines[k] == before[k];
      }
    }
  }

  /** Every line after the header opens with such a label, so the values line up in one column. */
  lemma LabelsAligned(observations: seq<Observation>)
    requires observations != []
    ensures var run := Render(observations);
      forall k :: 1 <= k < |run.lines| ==> Labelled(run.lines[k])
  {
    var o := observations[0];
    BeforeWindLabelled(o);
    match CompassLabel(o.winddir) {
      case Ok(dir) =>
        AppendLabelled(LinesBeforeWind(o), WindLine(o, dir));
      case Err(p) =>
        AppendLabelled(LinesBeforeWind(o), [Span(Cyan, WindLabel)]);
    }
  }

  /** Only the first observation is read; the rest of the list makes no difference. */
  lemma OnlyFirstObservation(a: seq<Observation>, b: seq<Observation>)
    requires a != [] && b != [] && a[0] == b[0]
    ensures Render(a) == Render(b)
  {
  }

  /**
   * The feels-like value is coloured by the current temperature: two
   * observations that differ only in wind chill colour it alike, and a
   * wind chill in the green band is printed red on a hot day.
   */
  lemma FeelsLikeColouredByTemperature(o: Observation, chill: int)
    ensures FeelsLikeLine(o)[1].colour == FeelsLikeLine(o.(imperial := o.imperial.(windChill := chill)))[1].colour
    ensures FeelsLikeLine(o)[1].colour == CurrentLine(o)[1].colour
    ensures var hot := Observation("S", "T", 0, 50, Imperial(85, 50, 70, 5, 10));
      FeelsLikeLine(hot)[1].colour == Red && TempColour(hot.imperial.windChill) == Green
  {
  }

  /**
   * A sample observation (75 °F, wind chill 70 °F, dew point 60 °F, 55 %,
   * wind from 45° at 10 mph gusting 15) renders to these lines.
   */
  lemma RenderSample()
    ensures var o := Observation("KTEST1", "2024-01-01 12:00 PM", 45, 55, Imperial(75, 60, 70, 10, 15));
      var run := Render([o]);
      && run.Finished?
      && Text(run.lines[0]) == HeaderLead + "KTEST1" + " at " + "2024-01-01 12:00 PM" + " are:"
      && Text(run.lines[1]) == CurrentLabel + "75\U{B0}F (23\U{B0}C)"
      && Text(run.lines[2]) == FeelsLikeLabel + "70\U{B0}F (21\U{B0}C)"
      && Text(run.lines[3]) == DewPointLabel + "60\U{B0}F (15\U{B0}C)"
      && Text(run.lines[4]) == HumidityLabel + "55%"
      && Text(run.lines[5]) == WindLabel + "NE(45\U{B0}) @ 10-15 mph"
      && run.lines[1][1].colour == Green
  {
    var o := Observation("KTEST1", "2024-01-01 12:00 PM", 45, 55, Imperial(75, 60, 70, 10, 15));
    RenderLayout([o]);
    SampleTemps();
    SampleHumidity();
    SampleWind();
  }

  lemma SampleTemps()
    ensures TempText(75) == "75\U{B0}F (23\U{B0}C)"
    ensures TempText(70) == "70\U{B0}F (21\U{B0}C)"
    ensures TempText(60) == "60\U{B0}F (15\U{B0}C)"
  {
    assert Celsius(75) == 23 && Celsius(70) == 21 && Celsius(60) == 15;
    FormatTwoDigits(75);
    FormatTwoDigits(23);
    FormatTwoDigits(70);
    FormatTwoDigits(21);
    FormatTwoDigits(60);
    FormatTwoDigits(15);
  }

  lemma SampleHumidity()
    ensures FormatInt(55) + "%" == "55%"
  {
    FormatTwoDigits(55);
  }

  lemma SampleWind()
    ensures CompassDirs[CompassIndex(45)] + "(" + FormatInt(45) + Degree + ") @ " + FormatInt(10) + "-" + FormatInt(15) + " mph"
         == "NE(45\U{B0}) @ 10-15 mph"
  {
    FormatTwoDigits(45);
    FormatTwoDigits(10);
    FormatTwoDigits(15);
  }
}
