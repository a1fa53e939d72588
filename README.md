# AnalistaTools: extraction, price rewrite, outlier report and profile lookup

AnalistaTools is a Streamlit tool. It turns a saved shop page (PcComponentes or
CoolMod) into a product table and then reports price statistics on that table.
This project models the parts of it that compute something, and proves what they
guarantee:

- **Extraction** (`scrapper.py`).
  - `Scrapper.__init__` builds the profile registry.
  - `define_perfiles` turns one product fragment into a four-field record. The
    fields are evaluated in the source's order: product, price, seller, image.
  - `scrap_info_product` runs extraction over every container fragment of an
    uploaded page. It holds the records in an array, overwrites the price column
    in place with the rewritten and parsed prices, then reorders the columns. It
    catches every exception and reports it.
- **Price text** (`scrapper.py:44, 72`).
  - `strip()` of the located price element.
  - The rewrite chain: drop each `.`, turn each `,` into `.`, drop each `€`.
  - `float()` on the result, restricted to decimal numerals with an optional sign.
- **Statistics** (`graphics.py`).
  - `generar_estadisticas_outliers`: quartiles by linear interpolation, the fences
    Q1 − 1.5·IQR and Q3 + 1.5·IQR, and the rows outside them.
  - `value_counts` of the seller column.
  - The mean price per seller, sorted ascending.
- **Profile selection** (`main.py:43-51`). The list of profile names, the
  first-match lookup of the selected name, and the call into extraction.

Modules:

- `Wrappers`: `Option` stands for `None`. `Result` stands for a value or a raised exception.
- `PriceText`: `strip`, `replace`, the rewrite chain, decimal parsing, and the
  sites' price format (`1.234,56€`) used for the round-trip property.
- `Scrapper`: fragments and profiles, and the records and the table.
  - `Scraped` is the functional specification of everything `scrap_info_product`
    can return.
  - `class Scrapper` holds the imperative version: the registry fields, the array
    loops, and the in-place price column.
- `Graphics`: sorting by key, interpolated quartiles, the outlier report, and the
  seller aggregations.
- `MainScript`: the name list, the lookup, and the scraper section of the script.

HTML parsing (BeautifulSoup) is abstracted.

- A product fragment is represented by what `find(tag, class_=cls)` returns on it
  for each selector: the element's text and its optional `src`.
- A page is represented by its candidate elements in document order.
  `find_all(tag, class_=cls)` keeps those whose tag matches and whose class set
  contains `cls`.
- A profile stores the selectors its lambdas query. One interpreter applies them.
- The uploaded file is a parameter: absent, not UTF-8, or a parsed page.

Where the code's behaviour is surprising, the model follows the code:

- A page without container fragments builds a table with no `Precio` column, so
  line 72 raises `KeyError`. The exception is caught: an empty table is returned
  and an error is reported. This is not a quiet empty result.
- A price that `float()` rejects raises at line 72, after `datosproductos` already
  holds the table built at line 71. That table is returned: raw price text, in
  dictionary key order (Producto, Precio, Vendedor, Imagen). It is not an empty result.
- If the selected name matches no profile (`perfil` is `None`) and a file is
  uploaded, `perfil['Container']` raises `TypeError`. It is caught and reported,
  and the empty list is returned.

## Model

| member | source | states |
|---|---|---|
| PriceText.Strip | tool-project/scrapper.py:44 | `strip()` never lengthens the text, and a non-empty result neither starts nor ends with whitespace |
| PriceText.StripSlice | tool-project/scrapper.py:44 | `strip()` keeps one contiguous slice of the text and drops only whitespace on either side of it |
| PriceText.StripClean | tool-project/scrapper.py:44 | text that neither starts nor ends with whitespace is returned unchanged by `strip()` |
| PriceText.StripKeepsCount | tool-project/scrapper.py:44 | `strip()` keeps every occurrence of a non-whitespace character |
| PriceText.Count | tool-project/scrapper.py:72 | the occurrence count is at most the length, and it is zero exactly when the character is absent |
| PriceText.RemoveAll | tool-project/scrapper.py:72 | `replace(c, '')` leaves no `c`, and shortens the text by exactly the number of `c` it held |
| PriceText.ReplaceAll | tool-project/scrapper.py:72 | `replace(c, d)` keeps the length; position by position it turns `c` into `d` and keeps every other character |
| PriceText.RemoveAllConcat | tool-project/scrapper.py:72 | removing a character distributes over concatenation |
| PriceText.ReplaceAllConcat | tool-project/scrapper.py:72 | replacing a character distributes over concatenation |
| PriceText.NormalizeIsOnePass | tool-project/scrapper.py:72 | `NormalizePrice`, the three whole-string rewrites equal one character-by-character pass (drop `.`, `,` to `.`, drop `€`) |
| PriceText.NormalizePriceFacts | tool-project/scrapper.py:72 | after `NormalizePrice`, the number of points equals the number of input commas; no `,` or `€` is left; the length is the input's minus its points and euro signs; every other character survives in order |
| PriceText.ParseDecimal | tool-project/scrapper.py:72 | a numeral that `float()` accepts is non-empty and denotes a non-negative amount |
| PriceText.ParseDecimalRejectsTwoPoints | tool-project/scrapper.py:72 | text with two or more points is not a number |
| PriceText.TwoCommasFail | tool-project/scrapper.py:72 | a raw price with two or more commas becomes text with two or more points, and `float()` rejects it |
| PriceText.Digits | tool-project/scrapper.py:72 | the decimal numeral of `n` is non-empty, all digits, and denotes `n` |
| PriceText.Padded | tool-project/scrapper.py:72 | the zero-padded numeral has the requested width and denotes its number |
| PriceText.DigitsValueConcat | tool-project/scrapper.py:72 | the value of concatenated digit strings is the first value shifted by the second one's length, plus the second value |
| PriceText.OnePassGrouped | tool-project/scrapper.py:72 | removing the thousands points from a grouped numeral leaves the digits of the number |
| PriceText.NormalizeEuroText | tool-project/scrapper.py:72 | rewriting a price in the sites' format leaves `<digits>.<two digits>` |
| PriceText.ParseCentsNumeral | tool-project/scrapper.py:72 | `ParseFloat`: `<digits>.<two digits>` parses to the whole part plus hundredths |
| PriceText.EuroTextRoundTrip | tool-project/scrapper.py:72 | round trip: a price shown as `1.234,56€` (any units, any cents) rewrites and parses back to exactly its amount |
| PriceText.ParseFloatRejectsTwoPoints | tool-project/scrapper.py:72 | `ParseFloat`: text with two or more points is not a number, with or without a sign |
| PriceText.SignedParse | tool-project/scrapper.py:72 | `ParseFloat`: a `+` or `-` before a clean numeral gives that numeral's value, negated for `-` |
| PriceText.SignedPriceExample | tool-project/scrapper.py:72 | `"-5,00€"` becomes `"-5.00"`, which `float()` reads as -5.0 |
| PriceText.ExamplePrices | tool-project/scrapper.py:72 | `"1.234,56€"` becomes `"1234.56"`, which is 1234.56; `"99,90€"` becomes `"99.90"`, which is 99.9 |
| Scrapper.FindFirst | tool-project/scrapper.py:16 | the `or` of finds is `None` exactly when every selector finds nothing; otherwise it is the element of the first selector that finds one |
| Scrapper.Containers | tool-project/scrapper.py:13-22 | `find_all` never returns more fragments than the page has elements, and nothing when no element matches |
| Scrapper.ContainersSpec | tool-project/scrapper.py:13-22 | `Containers`: the fragments returned are exactly the bodies of the page elements with the container's tag and class |
| Scrapper.DefinePerfilesFields | tool-project/scrapper.py:42-48 | `ProductoOf`, `VendedorOf`, `ImagenOf`, `RawPrice`: a record holds the stripped title text, the raw price, the fixed or stripped seller text, and the image's `src`, all read from the fragment |
| Scrapper.DefinePerfilesFirstError | tool-project/scrapper.py:42-48 | in evaluation order: a missing title gives `NotFound(Producto)`; else a missing seller gives `NotFound(Vendedor)`; else a missing image gives `NotFound(Imagen)`; else no `src` gives `NoSrc`; otherwise a record |
| Scrapper.ProfileLocators | tool-project/scrapper.py:11-27 | `PerfilPcComp` and `PerfilCoolMod`: a PcComp fragment gives a record exactly when it has `h3.product-card__title`, `span.card-seller-name` and `img.sc-lpYOg` with `src`; a CoolMod fragment needs `div.df-card__title` and an `img` with `src`, and no seller |
| Scrapper.ConvertPrice | tool-project/scrapper.py:72 | a missing price converts to a missing value (NaN); a failed conversion is a `float()` error |
| Scrapper.Traverse | tool-project/scrapper.py:69 | a successful pass over the fragments yields one result per fragment |
| Scrapper.TraverseSpec | tool-project/scrapper.py:69 | a pass succeeds exactly when every step does; it yields the step results in order; a failure carries the first failing element's exception |
| Scrapper.TraverseStep | tool-project/scrapper.py:69 | extending a successful prefix by one element either appends that element's result or fails with its exception |
| Scrapper.ExtractAllSpec | tool-project/scrapper.py:68-69 | `ExtractAll` yields exactly one record per fragment, in fragment order, or the first fragment's exception |
| Scrapper.RecordsOf | tool-project/scrapper.py:69 | when every fragment yields a record, extraction returns exactly those records, each with its raw price |
| Scrapper.SuccessParts | tool-project/scrapper.py:69-75 | on the success path, the returned table is the extracted records, one per fragment, with the converted column put in place and the columns reordered |
| Scrapper.ExtractedRecords | tool-project/scrapper.py:69 | successful extraction holds each fragment's record, in order |
| Scrapper.ConvertColumnSpec | tool-project/scrapper.py:72 | `ConvertColumn` converts exactly when every cell does, cell by cell in order; a failure carries the error of the first cell that does not convert |
| Scrapper.ConvertedPrices | tool-project/scrapper.py:72 | a successful conversion holds each record's converted price, in order |
| Scrapper.ColumnFailsAt | tool-project/scrapper.py:72 | one cell that fails to convert makes the whole column fail with a `float()` error |
| Scrapper.ScrapedReportsIff | tool-project/scrapper.py:64-75 | `Scraped`: for an uploaded page, nothing is reported exactly when there is at least one fragment, every fragment yields a record, and every located price converts |
| Scrapper.ScrapedReportsNothing | tool-project/scrapper.py:68-75 | the success path is taken exactly when extraction succeeds on a non-empty page and the price column converts |
| Scrapper.ScrapedSuccess | tool-project/scrapper.py:68-75 | after success, the columns are Imagen, Producto, Precio, Vendedor; there is one row per fragment in fragment order; each row is the fragment's record with its price converted |
| Scrapper.TwoCommasPriceFails | tool-project/scrapper.py:72 | a located price with two or more commas fails conversion with the rewritten text |
| Scrapper.ScrapedTwoCommas | tool-project/scrapper.py:69-101 | if every fragment yields a record but one price has two commas, a `float()` error is reported and the returned table holds the raw records in key order |
| Scrapper.ScrapedConvertFails | tool-project/scrapper.py:71-101 | a failed conversion reports its error alongside the table built at line 71 |
| Scrapper.ScrapedNoFragments | tool-project/scrapper.py:68-101 | a page with no container fragment gives an empty table and a reported error |
| Scrapper.CoolModSellersEmpty | tool-project/scrapper.py:24-48 | every table built with the CoolMod profile has an empty seller in every row |
| Scrapper.ScrapedWithProfile | tool-project/scrapper.py:68 | when a profile is given, the missing-profile error is never reported |
| Scrapper.PcCompPriceFallback | tool-project/scrapper.py:16-44 | the PcComp raw price is the stripped `sc-jJcwTH` span, else the stripped `goySsD` span, else `None` |
| Scrapper.Scrapper.constructor | tool-project/scrapper.py:8-29 | the two built-in profiles are stored, and the registry lists PcComp then CoolMod |
| Scrapper.Scrapper.DefinePerfiles | tool-project/scrapper.py:31-48 | a record is produced exactly when product, seller and image can all be read; its price is the raw located text, or `None`; any failure is a missing element or a missing `src` |
| Scrapper.Scrapper.DefineAll | tool-project/scrapper.py:69 | the loop over the fragments returns what the extraction specification returns |
| Scrapper.Scrapper.ConvertPriceColumn | tool-project/scrapper.py:72 | on failure, the array is unchanged and the error is returned; on success, every record's price cell is replaced by its converted value |
| Scrapper.Scrapper.SetPrices | tool-project/scrapper.py:72 | writing back the converted column changes each record's price cell and nothing else |
| Scrapper.Scrapper.ScrapInfoProduct | tool-project/scrapper.py:50-103 | the method returns exactly the value and reported error that the specification `Scraped` gives, for every profile and upload: it never raises, and no file gives the empty list with no error |
| Graphics.Insert | tool-project/graphics.py:20 | inserting adds exactly one element (multiset) |
| Graphics.SortBy | tool-project/graphics.py:20 | sorting is a permutation of its input |
| Graphics.InsertSorted | tool-project/graphics.py:20 | inserting into an ordered sequence keeps it ordered by the key |
| Graphics.SortBySorted | tool-project/graphics.py:20 | the sorted sequence is ordered by the key |
| Graphics.AscendingFacts | tool-project/graphics.py:20 | the sorted prices are ascending, a permutation of the prices, and of the same length |
| Graphics.QuarterMonotone | tool-project/graphics.py:20 | the interpolated value never decreases as its position increases |
| Graphics.QuartileFacts | tool-project/graphics.py:20 | `Quartile`: quantiles are monotone in q; the 0 quantile is the minimum; the 1 quantile is the maximum |
| Graphics.OutliersFacts | tool-project/graphics.py:24 | `Outliers`, the mask selection, is a subsequence of the table, and it holds exactly the rows strictly outside the fences |
| Graphics.OutliersCopies | tool-project/graphics.py:24 | `Outliers` keeps every copy of a row outside the fences, as many as the table holds, and no copy of any other row |
| Graphics.ReportOfNone | tool-project/graphics.py:19-28 | `GenerarEstadisticasOutliers` with no table: empty stats, threshold 0, fences 0, no outliers |
| Graphics.ReportFences | tool-project/graphics.py:20-23 | `GenerarEstadisticasOutliers`, `LowerFence`, `UpperFence` on a non-empty table: the threshold is 1.5; lower = Q1 − 1.5·IQR and upper = Q3 + 1.5·IQR; lower ≤ Q1 ≤ median ≤ Q3 ≤ upper; min and max are the smallest and largest prices and occur in the table |
| Graphics.FencesEnclose | tool-project/graphics.py:22-23 | `LowerFence`, `UpperFence`: with Q1 ≤ Q3, the fences lie outside [Q1, Q3] |
| Graphics.ExtremesOfSorted | tool-project/graphics.py:20 | the first and last sorted prices bound all prices and are prices of the table |
| Graphics.ReportOutliers | tool-project/graphics.py:24 | `GenerarEstadisticasOutliers`: a row is reported exactly when its price is strictly below the lower fence or strictly above the upper one; whole rows are kept in table order, each as many times as the table holds it; a price on a fence or within [Q1, Q3] is never reported |
| Graphics.ReportOfEmptyTable | tool-project/graphics.py:20-24 | an empty but present table has NaN order statistics and no outliers |
| Graphics.ExampleReport | tool-project/graphics.py:20-24 | for prices 10, 12, 11, 13, 12, 100: Q1 = 11.25, Q3 = 12.75, the fences are 9.0 and 15.0, and only the row priced 100 is reported |
| Graphics.CountOfPositive | tool-project/graphics.py:72 | a seller's count is positive exactly when some row has that seller |
| Graphics.AddToGroupOf | tool-project/graphics.py:72 | adding a row opens or increments its seller's group and leaves the other groups untouched |
| Graphics.AddToFacts | tool-project/graphics.py:72 | adding a row keeps the groups distinct and non-empty, raises the total count by one, and updates only that seller's count and price sum |
| Graphics.TallyFacts | tool-project/graphics.py:72 | grouping gives one non-empty group per distinct seller; each group's count and price sum are that seller's; the counts sum to the rows |
| Graphics.SortByDistinct | tool-project/graphics.py:72 | sorting keeps the seller names distinct |
| Graphics.SortBySum | tool-project/graphics.py:72 | sorting keeps the total of the counts |
| Graphics.ValueCountsSpec | tool-project/graphics.py:72 | `ValueCounts` (`value_counts`) has one entry per distinct seller, each with that seller's row count, in non-increasing count order; every seller of the table is listed; the counts sum to the number of rows |
| Graphics.MeanPairsFacts | tool-project/graphics.py:91 | the grouped means have distinct sellers; each is its seller's price sum over its row count; every seller of the table has one |
| Graphics.MeanPricesSpec | tool-project/graphics.py:91 | `MeanPrices`, the mean price per seller, is a permutation of the grouped means, sorted ascending, one entry per distinct seller of the table |
| MainScript.NombresPerfiles | tool-project/main.py:45 | the name list has one entry per profile, in registry order, each that profile's name |
| MainScript.FindPerfilSpec | tool-project/main.py:49 | `FindPerfil` is `None` exactly when the name is not in the list; otherwise it is the first profile, in list order, with that name |
| MainScript.FindPerfilIndex | tool-project/main.py:49 | a successful lookup returns the profile at the first position carrying the name |
| MainScript.FindPerfilNone | tool-project/main.py:49 | the lookup fails exactly when no profile carries the name; there is no default profile |
| MainScript.OfferedNamesFound | tool-project/main.py:45-49 | every name offered by the select box is found, and it finds a profile of that name |
| MainScript.UniqueLookup | tool-project/main.py:49 | with distinct names, a profile's own name finds that very profile |
| MainScript.RegistryLookup | tool-project/scrapper.py:11-29 | the built-in names are distinct; the offered names are "PcComp" then "CoolMod"; each finds its own profile; any other name finds none |
| MainScript.ScrapperSection | tool-project/main.py:43-51 | the script offers "PcComp" and "CoolMod", looks up the selected name, and runs extraction with the profile found; an offered name never leads to the missing-profile error |

## Left out

- Streamlit UI: uploader widget, data editor, download buttons, expanders,
  metrics and CSS. The upload is a parameter. The reported exception stands for `st.error`.
- `downloader.py`: browser automation and network I/O.
- BeautifulSoup: HTML parsing and the exact `find`/`find_all` semantics are
  abstracted. This covers nested descendants, multi-valued class matching and
  what `.text` concatenates.
- pandas CSV I/O (`to_csv`, and `read_csv` in the analysis page). The
  statistics take the table as rows with real prices.
- Charts: histogram, density, bar, box and scatter plots, and the display rounding.
- PriceText.ParseFloat: does not model Python's full `float()` grammar
  (exponents, underscores, `inf`/`nan`, non-ASCII digits). It accepts an
  optional sign followed by digits with at most one point. That covers every
  price in the sites' `1.234,56€` format (`EuroTextRoundTrip`) and signed ones
  such as `-5,00€` (`SignedPriceExample`). A price written with an exponent,
  an underscore or as `inf`/`nan` is a conversion error in the model but not in
  the program. Values are exact reals, not IEEE doubles.
- PriceText.RemoveAll: does not model pandas' regex mode. A one-character
  pattern is replaced literally.
- Scrapper.ConvertPrice: a missing price becomes a missing value, standing for
  NaN. NaN arithmetic is not modelled.
- Graphics.Row: NaN prices and missing sellers, as `read_csv` produces them, are
  not modelled. Every row has a real price and a seller string.
- Graphics.Stats: `describe()` also reports mean and standard deviation, which
  are not modelled. Quartiles use pandas' default linear interpolation at
  q·(n−1), computed exactly.
- Graphics.ValueCounts: the order among sellers with equal counts is not
  specified. pandas' order for ties is an implementation detail of its sort.
- Graphics.MeanPrices: the order among sellers with equal means is not specified.
  `sort_values` uses an unstable quicksort. The group fold lists sellers in
  first-appearance order, while `groupby` sorts them by name; only the order of
  ties can tell them apart.
