# Cubagem — a Dafny model of the cubage service

The cubage service is a small Flask application (`app.py`). It loads a product catalog from a spreadsheet. It answers two requests:

- `/buscar`: a case-insensitive search of the catalog by code or name;
- `/cubagem`: a cubage calculation that
  1. looks every requested item up by its normalised code;
  2. adds up the volume and weight of the items found, times their quantities;
  3. offers the standard boxes whose capacity holds the total volume, smallest first.

This project models that logic as pure Dafny functions, lemmas and four methods, and proves what the code promises.

| file | module | what it models |
|---|---|---|
| `wrappers.dfy` | `Wrappers` | `Option` and `Result`, for missing values and for the exceptions the routes turn into error answers |
| `text.dfy` | `Text` | the Python string built-ins the code relies on: `str.strip()` (with the `str.isspace()` character set), `str.endswith()`, `str.lower()` and the substring test `in` |
| `codes.dfy` | `Codes` | `norm_code` |
| `numbers.dfy` | `Numbers` | `to_float`: the cleaning of the text, the regular-expression search `[-+]?\d*\.?\d+(?:[eE][-+]?\d+)?`, and the exact value `float()` gives the matched numeral |
| `catalog.dfy` | `Catalog` | `carregar_dados` once the sheet is read, and the lookup `df[df["Codigo"] == code].iloc[0]` |
| `search.dfy` | `Search` | the `buscar` row predicate and route |
| `boxes.dfy` | `Boxes` | the `caixas` table, and the filter-and-sort that picks the boxes for a total volume |
| `cubage.dfy` | `Cubage` | the item loop of the `cubagem` route, the route itself, and its error answer |

## Modelling choices

- **Exact arithmetic.** Numbers are exact reals, so the model does not round floating point.
  - `to_float` of a numeral is the exact value it denotes.
  - `int()` of a JSON fraction truncates toward zero, written out explicitly (`Cubage.TruncateTowardZero`).
- **Spreadsheet cells.** A cell (`Numbers.Cell`) is missing, a number or text.
  - A missing cell (NaN or None) stands for what `pd.isna` accepts.
  - Codes and names are modelled as the strings `str()` renders.
  - A request item without "codigo" asks for `norm_code(None)`, that is, the code "None".
- **Regular expression.** `re.search` takes the leftmost position where the pattern matches. At that position, the backtracking match of this pattern is the longest numeral that starts there. The model defines the numeral language declaratively (`Numbers.NumeralAt`). It proves that the scanner finds exactly the leftmost-longest numeral (`Numbers.FindNumeralSpec`). `\d` is taken as the ASCII digits (see `Numbers.ToFloat` under Left out).
- **Character classes.**
  - `str.strip()` removes exactly the characters `str.isspace()` accepts (`Text.IsSpace`).
  - `str.lower()` is modelled for the ASCII and Latin-1 letters (`Text.LowerChar`).
- **Exceptions as error values.** The Python code raises and catches exceptions; the model returns error values instead:
  - a missing "Codigo" column is `LoadError.MissingCodeColumn`;
  - the volume formula reading an absent dimension column is `LoadError.MissingDimensionColumn`;
  - a quantity `int()` rejects is `CubageError.BadQuantity`, with the item's index;
  - a found item's quantity that a 64-bit SQLite INTEGER cannot hold, which makes the insert raise OverflowError, is `CubageError.QuantityTooLarge`;
  - `buscar`'s `.loc` on an absent "Nome" or dimension column is `SearchError`.
- **Quantities and duplicate codes.** The model keeps exactly what `app.py` does with them:
  - an absent quantity counts as 1 (app.py:157);
  - a quantity `int()` rejects fails the whole request with the error answer (app.py:211-212);
  - zero and negative quantities are used as given;
  - a found item whose quantity lies outside -2^63 .. 2^63-1 fails the request, because the insert of its row cannot store it (app.py:189-199, 211-212);
  - when several catalog rows carry the same code, the first one is used (app.py:161).

## Model

| member | source | states |
|---|---|---|
| `Codes.NormCode` | app.py:20-24 | the normalised code is never longer than the raw one |
| `Codes.NormCodeSpec` | app.py:20-24 | the normalised code is the stripped code with one trailing ".0" cut off: appending ".0" gives the stripped code back; without a ".0" ending it is the stripped code itself |
| `Codes.NormCodeFixesCanonical` | app.py:20-24 | a code with no surrounding whitespace and no ".0" ending is left unchanged |
| `Codes.NormCodeDropsFloatSuffix` | app.py:22-23 | the float rendering `c + ".0"` of a code `c` that does not start with whitespace normalises back to `c` |
| `Codes.NormCodeFloatExample` | app.py:20-24 | "12345.0" normalises to "12345" |
| `Codes.NormCodePaddedExample` | app.py:21 | " 12345 " normalises to "12345" |
| `Codes.NormCodeNotIdempotent` | app.py:22-23 | "1.0.0" normalises to "1.0", which normalises again to something else: only one suffix is cut, so normalising is not idempotent |
| `Text.Strip` | app.py:21 | stripping never lengthens a string |
| `Text.StripStripped` | app.py:21 | the stripped string has no whitespace at either end |
| `Text.StripKeeps` | app.py:21 | stripping adds no character, and keeps every character that is not whitespace |
| `Text.StripUnique` | app.py:21 | for any split of a string into leading whitespace, a middle with no whitespace at its ends, and trailing whitespace, the middle is what stripping returns |
| `Text.Lower` | app.py:98-100 | lower-casing keeps the length |
| `Text.LowerIdempotent` | app.py:98-100 | lower-casing twice is lower-casing once |
| `Text.Contains` | app.py:100 | `needle in hay` holds exactly when some window of `hay` equals `needle` |
| `Text.ContainsEmpty` | app.py:100 | the empty string is in every string |
| `Numbers.ToFloat` | app.py:26-33 | a missing cell (NaN) reads as 0; a number reads as itself; text without a digit reads as 0 |
| `Numbers.ToFloatLeftmostLongest` | app.py:31-33 | text reads as the exact value of the leftmost numeral of the cleaned text, taking the longest numeral at that position |
| `Numbers.FindNumeralSpec` | app.py:32 | the search returns a numeral of the text; no numeral starts earlier, and none at that position is longer; it finds nothing only when the text holds no numeral at all |
| `Numbers.FindNumeralUnique` | app.py:32 | any leftmost-longest numeral is the one the search returns |
| `Numbers.FindNumeralIffDigit` | app.py:32-33 | the search finds a numeral exactly when the text has a digit |
| `Numbers.MatchSound` | app.py:32 | what the scanner matches at a position is a numeral of the pattern's language |
| `Numbers.MatchMaximal` | app.py:32 | every numeral of the pattern's language at a position is matched there, and is no longer than the match |
| `Numbers.RemoveSpaces` | app.py:31 | removing blanks leaves no blank and keeps every other character |
| `Numbers.RemoveSpacesChar` | app.py:31 | a single blank is removed, and any other single character is kept |
| `Numbers.RemoveSpacesConcat` | app.py:31 | blanks are removed piece by piece, so with `RemoveSpacesChar` the other characters keep their order and their count |
| `Numbers.CommasToDots` | app.py:31 | every comma becomes a dot, and every other character stays in place |
| `Numbers.CleanKeepsDigits` | app.py:31 | cleaning the text keeps exactly its digits: the cleaned text has a digit iff the raw text has one |
| `Numbers.ToFloatDecimalComma` | app.py:31-33 | "1,5" and "1 ,5" read as 1.5 |
| `Numbers.ToFloatFirstNumber` | app.py:32-33 | "1.2.3" reads as 1.2: only the first numeral counts |
| `Numbers.ToFloatReadsIntegers` | app.py:26-33 | the decimal text of any integer reads back as that integer |
| `Numbers.NatToString` | app.py:31-33 | the decimal text of a natural number is a non-empty run of digits whose value is the number |
| `Catalog.Load` | app.py:35-57 | loading fails exactly when the "Codigo" column is absent, or when the volume column is absent and so is a dimension column; on success there is one product per row, each loaded by the same rule |
| `Catalog.ProductDefaults` | app.py:49-56 | a product's code is normalised; without a volume column its volume is length × width × height converted from cubic centimetres; with one it is the read value; without a weight column its weight is 0; without a name column its name is empty |
| `Catalog.LoadDefaults` | app.py:49-56 | the same five defaults hold for every product of a loaded catalog: normalised code, volume read from its column or computed from the dimensions, weight 0 without a weight column, and an empty name without a name column |
| `Catalog.CubicMetresScale` | app.py:54 | the computed volume times 1 000 000 is the product of the three dimensions |
| `Catalog.MetreCube` | app.py:54 | a 100 cm cube has a volume of one cubic metre |
| `Catalog.Lookup` | app.py:158-161 | a found index is a row of the catalog |
| `Catalog.LookupSpec` | app.py:158-161 | the lookup finds the first row carrying the code, and finds nothing exactly when no row carries it |
| `Search.Filter` | app.py:100-101 | no more rows come back than the catalog has, and a row comes back exactly when its code or name contains the query, ignoring case |
| `Search.Buscar` | app.py:96-113 | the search fails exactly when the catalog does not load or lacks the name or a dimension column; otherwise it returns the matching rows in catalog order, each as often as it occurs (the filter of the catalog), and an absent query counts as empty |
| `Search.FilterConcat` | app.py:100-101 | the search keeps catalog order: searching two parts of a catalog one after the other gives the two results one after the other |
| `Search.EmptyQueryMatches` | app.py:98-101 | every row matches the empty query |
| `Search.EmptyQueryKeepsAll` | app.py:98-101 | an empty query returns the whole catalog, in order |
| `Search.QueryCaseInsensitive` | app.py:98-100 | lower-casing the query does not change the result |
| `Search.FilterSameMatches` | app.py:98-100 | two queries with the same lower-case form find the same rows |
| `Search.CodeFindsItself` | app.py:100 | searching for a row's own code finds that row |
| `Boxes.TableAscending` | app.py:10-17 | the box table is listed by ascending capacity |
| `Boxes.Fitting` | app.py:178 | the filter keeps exactly the boxes whose capacity reaches the total, each as many times as it occurs, and adds none |
| `Boxes.Insert` | app.py:177-180 | inserting into an ascending list keeps it ascending and adds just the box |
| `Boxes.SortByCapacity` | app.py:177-180 | the sort returns an ascending permutation of its input |
| `Boxes.SortAscendingIdentity` | app.py:177-180 | sorting leaves an ascending list unchanged |
| `Boxes.WithCapacityCons` | app.py:177-180 | a box in front of a list comes first among the boxes of its capacity |
| `Boxes.InsertStable` | app.py:177-180 | inserting a box puts it in front of the boxes of the same capacity, and leaves the boxes of every other capacity as they were |
| `Boxes.SortStable` | app.py:177-180 | the sort is stable: for every capacity, the boxes of that capacity come out in the order they went in, as `sorted` keeps them |
| `Boxes.Offer` | app.py:177-180 | the offered boxes are exactly those of the list that hold the total, each as many times as it occurs, ascending |
| `Boxes.Select` | app.py:177-180 | the offered boxes are exactly the table boxes that hold the total, ascending by capacity |
| `Boxes.SelectSuffix` | app.py:177-180 | the offer is a suffix of the table |
| `Boxes.SelectTooLarge` | app.py:177-180 | a total above 0.67 m³, the largest capacity, gets no box |
| `Boxes.SelectSmall` | app.py:177-180 | a total of at most 0.11 m³, the smallest capacity, gets the whole table |
| `Cubage.TruncateTowardZero` | app.py:157 | `int()` of a fraction is the whole number next to it on the side of zero |
| `Cubage.TruncateWhole` | app.py:157 | `int()` leaves a whole number as it is |
| `Cubage.Count` | app.py:157 | an absent quantity counts as 1, and a whole number as itself; a fraction is truncated toward zero; the quantity is rejected exactly when `int()` raises |
| `Cubage.ResolveItemFound` | app.py:156-161 | an item yields a line exactly when some catalog row has its normalised code; the line is built from the first such row, with that row's volume and weight times the quantity |
| `Cubage.FirstBadQuantity` | app.py:155-157 | there is no bad index exactly when every quantity is readable; otherwise it is an index whose quantity `int()` rejects, and every earlier one is readable |
| `Cubage.FirstBadAt` | app.py:155-157 | the first rejected quantity is the one reported |
| `Cubage.AddItem` | app.py:155-175 | one pass over an item whose quantity is readable keeps the loop state: the lines are those of the items so far, and the totals are the sums of their volumes and weights |
| `Cubage.Aggregate` | app.py:151-175 | the loop fails exactly when a quantity is unreadable, reporting an index whose quantity `int()` rejects and before which every quantity is readable, that is, the first one; otherwise its lines are the expected lines, and its totals are the sums of their volumes and weights |
| `Cubage.LinesArePresent` | app.py:155-175 | the lines the loop collects are the outcomes of the items, in request order, with the items not found dropped |
| `Cubage.ResolvedItems` | app.py:155-161 | the items the answer covers are listed in increasing order, and an item is among them exactly when the catalog has its code |
| `Cubage.LinesAreResolvedItems` | app.py:155-175 | there is one line per item found: the k-th line is the line of the k-th item found |
| `Cubage.LinesBound` | app.py:205 | there are never more lines than items |
| `Cubage.ValidConcat` | app.py:155-157 | a list of items is readable exactly when both of its halves are |
| `Cubage.LinesConcat` | app.py:155-175 | the lines of two item lists, one after the other, are the two lists' lines, one after the other: each line depends on its own item alone |
| `Cubage.LinesSnoc` | app.py:155-175 | one more item adds its own outcome, and nothing else, at the end of the lines |
| `Cubage.TotalsConcat` | app.py:163-164 | the totals of two item lists, one after the other, are the sums of their totals |
| `Cubage.AbsentQuantityCountsOnce` | app.py:157-174 | an item without a quantity yields its product's own volume and weight with quantity 1 |
| `Cubage.FloatCodeFindsSameLine` | app.py:156-158 | an item whose code was sent as "c.0" asks for the same code as one sent as "c" |
| `Cubage.Store` | app.py:189-199 | the insert loop goes through exactly when every line's quantity fits a 64-bit INTEGER |
| `Cubage.StorableIffFoundFit` | app.py:155-175 | the lines can be stored exactly when every found item's quantity fits a 64-bit INTEGER |
| `Cubage.TooLargeQuantityFails` | app.py:189-199 | a found item requested 2^63 times gives lines that cannot be stored |
| `Cubage.Cubagem` | app.py:145-212 | the route fails with the load error when the catalog does not load; with a loaded catalog it fails exactly when a quantity is unreadable (naming the first one) or a found item's quantity does not fit the store (`QuantityTooLarge`); on success it reports the expected lines, their number (at most the number of items), their total volume and weight, and the table boxes that hold the total |

## Left out

- Flask routing, JSON encoding of the answers and HTTP status codes are left out. The routes take their inputs as values and return `Result` values.
- Reading the spreadsheet (`pd.read_excel`) and the column-renaming table are left out. A `Catalog.Sheet` gives the column set after renaming and the rows as cells.
- The SQLite store, with `criar_banco`, the inserts and the `get_cubagem` route, is left out, except that an inserted quantity must fit a 64-bit INTEGER (`Cubage.Store`). So are the answer's `numero_cubagem`, which comes from the store, and the timestamp, which comes from the clock.
- The `index` route is left out; it only renders a template.
- Floating-point rounding is left out: volumes, weights and `to_float` results are exact reals.
- `Numbers.ToFloat`: `\d` is taken as the ASCII digits 0-9 only. Python's `\d` and `float()` also accept the other Unicode decimal digits, such as Arabic-Indic digits, and the model reads those as non-digits.
- `Numbers.ToFloat`: text that `float()` reads as infinity is out of reach, because the pattern never matches "inf" or "nan". An exponent too large for a float, which `float()` turns into infinity, is read as its exact value.
- `Cubage.Aggregate` (and `Cubage.Cubagem`): `float(r["m3_total"]) * qtd` raises OverflowError inside the loop when a found item's quantity is 2^1024 or more in size (app.py:163). The model lets the loop finish, and the route then fails with `QuantityTooLarge`, because such a quantity cannot be stored either. The request fails in both, but when a later item's quantity is unreadable, the source reports the overflow and the model reports `BadQuantity`.
- `Cubage.Count`: which strings `int()` accepts, and `int()` of NaN or infinity (both raise), are left to the caller. Such a value arrives as `Quantity.Whole` or `Quantity.Unconvertible`.
- `Text.Lower` (and `Text.LowerChar`): keeps the length and lower-cases only the ASCII and Latin-1 letters. Python's `str.lower()` covers every Unicode letter, and some of them become two characters.
- The JSON request body is taken as parsed. Three cases cannot be represented, and in the source each raises and the route answers with its error result:
  - `request.json` is absent or not an object;
  - `"itens": null`, where `for item in None` raises (app.py:148, 155); `Option.None` stands for an absent "itens", which counts as an empty list;
  - an item that is not an object, where `item.get` raises (app.py:156).
- A `buscar` request whose query is not text is left out. The query is taken as text or absent.
