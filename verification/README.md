# pws: a Dafny model of the personal-weather-station report

`pws` is a small Go command that asks a weather-station API for the current
observation of one station and prints it as six coloured lines: a header with
the station and its local observation time, the current temperature, the
"feels like" temperature, the dew point, the humidity and the wind. This
project models everything in that program that is computation rather than
I/O, as pure Dafny functions, and proves what the printed report means.

- `wrappers.dfy` (module `Wrappers`): `Option` and `Result`.
- `go_int.dfy` (module `GoInt`): Go's `/` on `int` (truncation toward zero,
  unlike Dafny's Euclidean `/`) and the `%d` verb, with a reader that
  inverts it.
- `fetcher.dfy` (module `Fetcher`): the four configuration strings and the
  request URL built from them, with a parser that recovers the settings.
- `presenter.dfy` (module `Presenter`): the decoded observation, the
  Fahrenheit-to-Celsius conversion, the temperature colour bands, the compass
  table, and `Render`, which turns the decoded observation list into the run's
  printed lines, or into the run-time panic Go raises, together with the lines
  printed before it.

Each printed line is a sequence of spans, each span a text with the colour it
is printed in (`Cyan` labels, `Yellow` header values, `Green`, `Red` or
`HiBlue` values); terminal escape codes are not modelled. Two inputs make the
program panic rather than print a report, and `Render` models both:
an empty `observations` list (index 0 of an empty slice, after
"Current Conditions for " has been printed) and a wind direction whose sector
`winddir / 22` falls outside the 17-entry compass table (after the "Wind:"
label). Because Go's `/` truncates, the table is safe exactly for directions
-21 to 373; every direction from 0 to 359 is inside that range.

The "feels like" line prints the wind chill, but picks its colour from the
current temperature, as the code does on lines 101-112. The decoded heat
index (pws.go:32) is never printed; the line always shows the wind chill.

## Model

| member | source | states |
|---|---|---|
| `GoInt.Quo` | pws.go:97 | Go's `/`: the remainder `a - b*q` is below the divisor and never opposite in sign to the dividend |
| `GoInt.QuoUnique` | pws.go:97 | that remainder law determines the quotient: any quotient satisfying it is `Quo` |
| `GoInt.QuoNegate` | pws.go:97 | truncation is symmetric: `Quo(-a, b) == -Quo(a, b)` |
| `GoInt.QuoOfNonNegative` | pws.go:128 | on a non-negative dividend Go's `/` equals Dafny's |
| `GoInt.QuoOfNegative` | pws.go:97 | on a negative dividend the divisor does not divide, Go's `/` is one above Dafny's floor |
| `GoInt.QuoSign` | pws.go:97 | the quotient is never opposite in sign to the dividend |
| `GoInt.QuoMonotonic` | pws.go:97 | dividing by a positive constant preserves order |
| `GoInt.FormatNat` | pws.go:123-125 | decimal digits, non-empty, with no leading zero unless the number is 0 |
| `GoInt.FormatInt` | pws.go:95-98 | `%d` text: non-empty, starts with '-' exactly when the number is negative, digits otherwise |
| `GoInt.ParseFormatInt` | pws.go:95-98 | `%d` text is well-formed decimal and reads back as the same number |
| `GoInt.FormatIntInjective` | pws.go:95-98 | distinct numbers never print alike |
| `GoInt.FormatIntChar` | pws.go:95-98 | every character of `%d` text is a digit or the leading '-' |
| `Fetcher.RequestUrl` | pws.go:53 | the URL has the four values plus 38 fixed characters, starts with the base, continues with "?stationId=" and ends with the key |
| `Fetcher.ParseUrl` | pws.go:53 | whatever the parser accepts is exactly the request URL of the settings it returns |
| `Fetcher.ParseRequestUrl` | pws.go:53 | when the base holds no '?' and station and units hold no '&', the settings are recovered from the URL |
| `Fetcher.RequestUrlInjective` | pws.go:53 | under the same conditions, different settings request different URLs |
| `Fetcher.UnescapedValuesCollide` | pws.go:53 | the values are not escaped: moving "&format=json&units=..." between station and units gives different settings with the same URL |
| `Presenter.Celsius` | pws.go:97 | `((f-32)*5)/9` truncated: above freezing the largest `c` with `9c <= 5(f-32)`, below it the smallest `c` with `9c >= 5(f-32)` |
| `Presenter.CelsiusMonotonic` | pws.go:97 | a warmer reading never converts to a colder one |
| `Presenter.CelsiusSymmetric` | pws.go:97 | the conversion is symmetric about 32 °F: `Celsius(32-d) == -Celsius(32+d)` |
| `Presenter.CelsiusSamples` | pws.go:97 | 32→0, 212→100, 98→36, -40→-40, and 0→-17 where floor division would give -18 |
| `Presenter.TempColour` | pws.go:88-94 | red exactly when above 80, green exactly when strictly between 60 and 80, hi-blue exactly when at most 60 or equal to 80 |
| `Presenter.TempColourBoundaries` | pws.go:102-108 | 80→hi-blue, 81→red, 60→hi-blue, 61→green |
| `Presenter.CompassIndex` | pws.go:128 | the 22-degree sector: `22i <= w < 22i+22` for non-negative directions, truncated toward zero for negative ones |
| `Presenter.CompassLabel` | pws.go:128-131 | a label from the table exactly when -21 <= w <= 373, otherwise Go's index-out-of-range panic with the sector index and length 17 |
| `Presenter.CompassTotalOnDegrees` | pws.go:128-131 | every direction in 0..359 has sector 0..16 and its table label |
| `Presenter.CompassNorth` | pws.go:74 | "N" is shown exactly for -21..21 and 352..373 |
| `Presenter.CompassSamples` | pws.go:74 | 0→N, 45→NE, 90→E, 359→N, 374 panics with index 17 |
| `Presenter.TempTextStart` | pws.go:95-98 | the temperature text starts with the Fahrenheit number followed by the degree sign |
| `Presenter.TempTextInjective` | pws.go:109-112 | two different readings never print the same temperature text |
| `Presenter.Render` | pws.go:80-135 | empty list: panic after "Current Conditions for "; otherwise finished exactly when the wind direction is in -21..373, with the header, current, feels-like, dew-point and humidity lines and the wind line for sector `CompassIndex(winddir)`; else those five lines, the bare wind label, and the panic `IndexOutOfRange(CompassIndex(winddir), 17)` |
| `Presenter.RenderLayout` | pws.go:80-135 | for a direction in -21..373 the six lines read header, current, feels like (wind chill), dew point, humidity `<h>%`, wind `<label>(<deg>°) @ <speed>-<gust> mph` with the label of sector `CompassIndex(winddir)`, each temperature converted by the same `Celsius`; both temperature values coloured by the current temperature, the rest green |
| `Presenter.LabelsAligned` | pws.go:87-129 | every line after the header opens with a cyan label twelve characters wide |
| `Presenter.OnlyFirstObservation` | pws.go:81-134 | only the first observation is read: lists with the same first element render alike |
| `Presenter.FeelsLikeColouredByTemperature` | pws.go:100-112 | the feels-like colour ignores the wind chill, equals the current line's colour, and a green-band wind chill is printed red on a hot day |
| `Presenter.RenderSample` | pws.go:80-135 | a 75 °F sample renders "75°F (23°C)", "70°F (21°C)", "60°F (15°C)", "55%", "NE(45°) @ 10-15 mph", the current value green |

## Left out

- The HTTP exchange (`http.NewRequest`, the two headers, `client.Do`, closing the body) and reading the body (pws.go:56-71): network I/O.
- The print-and-continue handling of those errors (pws.go:58-71): it only writes error text; after a failed request the program dereferences a nil response, which is I/O behaviour outside this model.
- JSON decoding (`json.Unmarshal`, pws.go:73): a library call. The model starts from the decoded `observations` list. A body that is not valid JSON leaves the list empty, which `Render` covers as the empty-list panic; a valid but mistyped body can leave observations with zero-valued fields, which `Render` takes like any other.
- Fields decoded but never printed (pws.go:16, 18-26, 29, 32, 37-40): `obsTimeUtc`, `neighborhood`, `softwareType`, `country`, `solarRadiation`, `lon`, `realtimeFrequency`, `epoch`, `lat`, `uv`, `qcStatus`, `heatIndex`, `pressure`, `precipRate`, `precipTotal` and `elev`.
- How `api`, `sid`, `units` and `key` get their values (pws.go:45-50): they are set outside the program; the model takes them as a `Config`.
- Colour library calls and ANSI escapes (pws.go:75-77, 89-93, 103-107): each span carries a colour tag instead, and colour resets are not modelled.
- GoInt.Quo: Go's `int` is 32 or 64 bits depending on the platform; the model uses unbounded integers, so `(f - 32) * 5` overflowing (for readings beyond about 4.3e8 with 32-bit `int`, 1.8e18 with 64-bit) is not modelled, and only positive divisors are covered because the program divides only by 9 and 22.
