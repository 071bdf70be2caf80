/**
 * The data and services that the `jma` crate provides to the command-line
 * program. The crate's code is not part of this model: each service is a
 * total function given as input, standing for the answers of the loaded
 * area catalogue, the forecast-area (AMeDAS station) database and the
 * per-office forecasts.
 */
module Jma {
  import opened Wrappers

  type Code = string

  /** The four levels of the area hierarchy, from the broadest to the finest. */
  datatype AreaClass = Center | Office | Class10 | Class20

  /** The descriptive attributes of an area, as the plain search prints them. */
  datatype Area = Area(
    name: string,
    enName: string,
    parent: Option<Code>,
    officeName: Option<string>,
    children: Option<seq<Code>>)

  /** An area with its code and level, as the catalogue's searches return it. */
  datatype CodedArea = CodedArea(code: Code, areaClass: AreaClass, area: Area)

  /** The area of a temperature forecast point: only its code and name are used. */
  datatype PointArea = PointArea(code: Code, name: string)

  /** `Areas`: substring search over all areas, over Class20 areas only, and the ancestor walk. */
  datatype Areas = Areas(
    search: string -> seq<CodedArea>,
    searchClass20s: string -> seq<CodedArea>,
    ancestor: (CodedArea, AreaClass) -> Option<CodedArea>)

  /** `ForecastArea`: the AMeDAS station codes situated in a Class10 area, if it has an entry. */
  datatype ForecastAreaDb = ForecastAreaDb(amedasByClass10: Code -> Option<set<Code>>)

  /** `JmaForecast`: the temperature points an office publishes, in its own order. */
  datatype Forecasts = Forecasts(temperaturePoints: Code -> seq<PointArea>)

  /** The three collaborators the temperature-point search consults. */
  datatype Catalogs = Catalogs(areas: Areas, forecastAreas: ForecastAreaDb, forecasts: Forecasts)
}
