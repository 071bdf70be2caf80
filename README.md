# jmacode: resolving a city name to JMA temperature-point codes

`jmacode` is a command-line tool. Given a city name, it looks up the Japan
Meteorological Agency's area codes. It has two modes:

- **Temperature-point search** (`-t`). The catalogue's Class20 (city/ward)
  areas whose name matches are the candidates. For each one, in search order,
  the tool does the following:
  - finds its Class10 and Office ancestors;
  - reads the AMeDAS station codes of the Class10 area;
  - keeps the Office's temperature forecast points whose code is one of
    those stations;
  - prints an `[area]` block for each kept point whose code it has not
    printed yet in this query.

  A candidate without a Class10 or Office ancestor is reported and skipped.
  A candidate whose Class10 area has no station entry is skipped silently.
  A candidate with no matching point is reported. When no Class20 area
  matches, "not found" is reported once and nothing is printed.
- **Plain search.** Prints each hit of the catalogue search, in the order the
  search returns them. When nothing matches, "not found" is reported once.

The `jma` crate supplies the area catalogue, the forecast-area (AMeDAS)
database and the per-office forecasts. Its code is not part of this model, so
each service is a total function given as input (`Jma.Areas`,
`Jma.ForecastAreaDb`, `Jma.Forecasts`). A query's output is a `Report`: the
records printed to standard output (office code and name, point code and name)
and the diagnostics printed to standard error (`CityNotFound`,
`Class10Missing`, `OfficeMissing`, `NoTemperaturePoints`).

Files:

- `jma.dfy`: the collaborators' data and services.
- `output.dfy`: records, diagnostics, and first-occurrence deduplication by
  point code (`Admit`, `Dedup`).
- `resolution.dfy`: what a query produces, stated per candidate (`Decide`,
  `Offered`, `Complaints`, `Resolve`), with lemmas about it.
- `jmacode.dfy`: the two searches as methods with the source's loops and early
  exits. Each method is proved against the functions above.
- `wrappers.dfy`: `Option`.

The code departs from the intended design in three places. The model follows
the code:

- The design describes the matching step as a set intersection. The code
  filters the Office's point list in order, so a point listed twice is matched
  twice. Deduplication by code then keeps only the first copy.
- The design asks for upstream data faults (for example a Class20 area
  with no parent) to be reported separately. The code reports them as a
  missing Class10 or Office ancestor.
- The design lists "no matches" as a diagnostic of its own. The code has
  only the "no temperature points" message.

## Model

| member | source | states |
|---|---|---|
| `JmaCode.SearchTemperaturePointCode` | src/main.rs:8-82 | The records and diagnostics it writes are exactly `Resolve(city, cat)`: one `CityNotFound` and no record when no Class20 area matches, otherwise each candidate's records in order after deduplication, and each candidate's diagnostics in order. The written point codes are pairwise distinct. |
| `JmaCode.CollectMatches` | src/main.rs:52-60 | The inner loop returns exactly the Office's temperature points whose code is an AMeDAS station of the Class10 area, in point-list order (`Matches`). |
| `JmaCode.EmitNew` | src/main.rs:67-80 | The `unique` loop appends, in order, each match whose code is not yet in `unique`, paired with the candidate's office code and name. Afterwards `unique` is still the list of point codes written so far, in order. |
| `JmaCode.SearchCode` | src/main.rs:84-121 | Plain search: when there is no hit, no record and exactly one `CityNotFound`; otherwise one record per hit in search order, and no diagnostic. |
| `Resolution.MatchesCount` | src/main.rs:51-60 | A point occurs among a candidate's matches exactly as often as in the Office's list when its code is a station code, and never otherwise. Membership holds in both directions. |
| `Resolution.MatchesAppend` | src/main.rs:53-60 | Matching distributes over concatenation of the point list, so it keeps point-list order. |
| `Resolution.RecordlessCandidateIsolated` | src/main.rs:28-72 | A candidate that offers no record leaves the records unchanged from those of the query without it. This covers a skipped candidate and one with no matching point. It adds only its own diagnostics, between those of the candidates before and after it. |
| `Resolution.Class10MissingIsolated` | src/main.rs:32-38 | A candidate without a Class10 ancestor contributes no record and exactly one `Class10Missing` naming it. The other candidates' output is unchanged. |
| `Resolution.OfficeMissingIsolated` | src/main.rs:39-45 | A candidate with a Class10 ancestor but no Office ancestor contributes no record and exactly one `OfficeMissing` naming it. The other candidates' output is unchanged. |
| `Resolution.NoStationsSilent` | src/main.rs:46-49 | A candidate whose Class10 area has no station entry leaves the whole report equal to the report without that candidate: no record and no diagnostic. |
| `Resolution.NoTemperaturePointsIsolated` | src/main.rs:46-66 | A candidate that reaches the point lookup but matches no point contributes no record. This includes a present but empty station set. It adds exactly one `NoTemperaturePoints` with its name, and the other candidates' output is unchanged. |
| `Resolution.ResolveEmitsFirstOccurrences` | src/main.rs:26-80 | Within one query, emitted point codes are pairwise distinct. They are exactly the codes offered by any candidate. Each emitted record is the first offered record with its code (candidate order, then point order). Emitted records keep the order of those first occurrences. |
| `Resolution.AllDuplicatesSilent` | src/main.rs:61-72 | A candidate that has matches, all with codes already emitted, adds neither a record nor a diagnostic. |
| `Resolution.NoTemperaturePointsIff` | src/main.rs:61-66 | "No temperature points" is reported for a candidate exactly when it reached the point lookup and its match list (before deduplication) is empty. |
| `Resolution.OfferedProvenance` | src/main.rs:50-79 | Every record a candidate offers pairs that candidate's Office code and name with the code and name of one of its matched points. |
| `Resolution.RecordProvenance` | src/main.rs:73-79 | Every emitted record pairs the Office code and name of some candidate with the code and name of one of that candidate's matched points. |
| `Resolution.ChiyodaScenario` | src/main.rs:28-80 | Worked example: one ward whose Class10 area holds station 44132, which its Office publishes as a point, yields exactly one record (130000, Tokyo-to, 44132, Tokyo) and no diagnostic. |
| `Output.AdmitAppend` | src/main.rs:26-28 | Because `unique` persists across candidates, deduplicating candidate by candidate equals deduplicating the concatenation of their matches. |
| `Output.AdmitKnown` | src/main.rs:67-72 | Matches whose codes are all already in `unique` write nothing. |
| `Output.DedupFirstOccurrences` | src/main.rs:67-72 | Deduplication keeps one record per code, namely the first record with that code, in first-occurrence order, and drops no code. |

## Left out

- Async runtime (`#[tokio::main]`, `.await`): the search logic never suspends.
- Loading the catalogues over the network or from cache (`Areas::new`, `ForecastArea::new`, `JmaForecast::new`) is left out, along with the panics of `.unwrap()` when loading fails. The forecast service is a total function, so loading never fails in the model.
- The substring matching of `search`/`search_class20s` and the parent walk of `ancestor` belong to the `jma` crate. They are inputs here, and nothing is assumed about them, for instance that `ancestor` returns an area of the requested class.
- Command-line parsing (clap) and the program name taken from `env::args` for the "not found" message.
- Output text. The `println!`/`eprintln!` formatting, the `keyword:` header of the plain search, the `reference_time = 5` line and the `--verbose` traces are not modelled. Records and diagnostic kinds with their payloads stand for the printed text.
- The container holding a Class10 area's AMeDAS codes is modelled as a set, because the source only tests membership in it.
