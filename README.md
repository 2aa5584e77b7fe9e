# UIKitSymbols generator, modelled in Dafny

UIKitSymbols is a test-hosted code generator for the Layout templating tool. It
scans the UIKit classes loaded in the test host:

- It keeps the class names that pass an allow/deny prefix filter, then adds a fixed
  supplemental list.
- For each scanned class it records the layout properties (`expressionTypes`) that
  the class adds to `UIView` or `UIViewController`.
- It writes two files from that catalog: a Swift symbol table
  (`LayoutTool/Symbols.swift`) and a Sublime Text completions list.

This project models the deterministic core of the generator:

- `text.dfy`, module `Text`: what the core needs from Swift strings.
  - `hasPrefix`.
  - The order `sorted()` uses, as lexicographic order on characters (`Below`),
    proved to be a strict total order.
  - Sorting a key set (`SortedKeys`). Its result is the unique ascending
    enumeration of the keys, so the generated text does not depend on dictionary
    iteration order.
  - `joined(separator:)`.
- `catalog.dfy`, module `Catalog`: `getProperties`.
  - The runtime's class list is an input `seq<LoadedClass>`.
  - `NSClassFromString` with the `UIView.Type` / `UIViewController.Type` casts is an
    input `Registry` that maps a name to its category (`View`, `Controller`, `Other`)
    and its `expressionTypes`. A name missing from the registry does not resolve.
  - `UIView.expressionTypes` and `UIViewController.expressionTypes` are the inputs
    `viewKeys` and `controllerKeys`.
  - A `RuntimeType` is a `Desc`: the text `\(type)` prints (`Show`) and the
    availability flag. Two types are equal when both parts are equal.
- `symbol_table.dfy`, module `SymbolTable`: `testBuildLayoutToolSymbols` up to the
  file write. The text is specified through a structure (`Table`: one `Block` per
  class, each holding its `Entry` lines), which `RenderBlocks` turns into text.
- `completions.dfy`, module `Completions`: `testBuildSublimeCompletions` up to the
  file write. Rows are strings and are deduplicated by string equality, as in the
  source.
- `scenarios.dfy`, module `Scenarios`: one catalog worked through both emitters
  down to the exact text. It has one class, `UILabel`, with an available `text`
  property and an unavailable `enabled` one.

Each loop in the source is a `for` or `while` loop here: the enumeration, the
filter, the removal of inherited entries, the per-name result loop and the nested
output loops. Each such method is proved against a specification function. When
the source iterates a dictionary in unspecified order (`for (key, type) in viewKeys`,
`keys.sorted()` over a hash set), the model picks elements with `:|`, which allows
any order. Every method's contract fixes its result all the same, so the outputs
are functions of the inputs (`SymbolFile`, `CompletionsFile`, `CatalogOf`).

The deny list has `UIProgressHUD` (UIKitSymbols.swift:113) and
`UIProgressIndicator` (:114), not a bare `UIProgress`.

## Model

| member | source | states |
|---|---|---|
| `Text.HasPrefix` | UIKitSymbols/UIKitSymbols.swift:154-155 | `hasPrefix`, used at :31 and :154-155: the name's first characters are the prefix |
| `Text.HasPrefixSplit` | UIKitSymbols/UIKitSymbols.swift:154-155 | a name has a prefix iff it is that prefix followed by some rest |
| `Text.Below` | UIKitSymbols/UIKitSymbols.swift:211 | the order `sorted()` uses: character-by-character comparison, where a proper prefix sorts first |
| `Text.BelowIrreflexive` | UIKitSymbols/UIKitSymbols.swift:211 | no name sorts strictly before itself |
| `Text.BelowTransitive` | UIKitSymbols/UIKitSymbols.swift:211 | the sort order is transitive |
| `Text.BelowTotal` | UIKitSymbols/UIKitSymbols.swift:211 | of two distinct names, one sorts before the other |
| `Text.BelowAsymmetric` | UIKitSymbols/UIKitSymbols.swift:211 | two names never sort before each other |
| `Text.Insert` | UIKitSymbols/UIKitSymbols.swift:211 | inserting a new name into an ascending list keeps it ascending, adds exactly that name and grows it by one |
| `Text.SortingExists` | UIKitSymbols/UIKitSymbols.swift:211 | every finite key set has an ascending enumeration |
| `Text.SortingUnique` | UIKitSymbols/UIKitSymbols.swift:211 | two ascending enumerations of the same key set are equal, so `sorted()` is deterministic |
| `Text.Sorted` | UIKitSymbols/UIKitSymbols.swift:211 | the sorted keys are strictly ascending and are exactly the set's elements |
| `Text.SortedKeys` | UIKitSymbols/UIKitSymbols.swift:211 | the loop returns the ascending enumeration of the keys, whatever order it takes them in |
| `Text.Join` | UIKitSymbols/UIKitSymbols.swift:281 | `joined(separator:)`: the parts in order with the separator between each two neighbours |
| `Text.JoinSnoc` | UIKitSymbols/UIKitSymbols.swift:281 | joining one more part appends that part, preceded by the separator unless it is the first |
| `Text.JoinLength` | UIKitSymbols/UIKitSymbols.swift:281 | the joined text is as long as the parts together plus one separator between each two of them |
| `Catalog.Enumerable` | UIKitSymbols/UIKitSymbols.swift:28-31 | the enumeration test: the class has a superclass, descends from UIView or UIViewController, its name does not start with `_` and contains no `.` |
| `Catalog.EnumeratedNamesMembers` | UIKitSymbols/UIKitSymbols.swift:26-35 | a name is appended iff some listed class has a superclass, descends from UIView or UIViewController, does not start with `_`, contains no `.` and has that name |
| `Catalog.CollectNames` | UIKitSymbols/UIKitSymbols.swift:23-35 | the names are `SKView` followed by the enumerated names in the runtime's order |
| `Catalog.AnyPrefix` | UIKitSymbols/UIKitSymbols.swift:153-156 | `contains { name.hasPrefix($0) }` holds iff some listed prefix is a prefix of the name |
| `Catalog.Keep` | UIKitSymbols/UIKitSymbols.swift:153-156 | a name is kept iff some allowed prefix matches it and no denied prefix does, so the deny list wins |
| `Catalog.KeptMembers` | UIKitSymbols/UIKitSymbols.swift:153-156 | a name survives the filter iff it was in the list and passes `Keep` |
| `Catalog.FilterNames` | UIKitSymbols/UIKitSymbols.swift:153-156 | the loop returns the kept names in their original order |
| `Catalog.ProgressHudExcluded` | UIKitSymbols/UIKitSymbols.swift:41-156 | `UIProgressHUD` matches the allowed prefix `UI` but is not kept |
| `Catalog.SupplementalAllDenied` | UIKitSymbols/UIKitSymbols.swift:52-169 | each of the eleven supplemental names fails the filter, so only the append after filtering gets it scanned |
| `Catalog.Show` | UIKitSymbols/UIKitSymbols.swift:223 | the text `\(type)` interpolates for a property type |
| `Catalog.Subtract` | UIKitSymbols/UIKitSymbols.swift:183-185 | the map after the removal loop: the entries of the class whose key and type do not both match the base |
| `Catalog.RemoveInherited` | UIKitSymbols/UIKitSymbols.swift:183-185 | whatever key order the loop takes, an entry is removed iff the base has the same key with the same type, and every kept entry keeps its value |
| `Catalog.SubtractRemovesExactlyInherited` | UIKitSymbols/UIKitSymbols.swift:183-185 | after subtraction no entry equals the base's entry for its key; an entry whose key is absent from the base, or whose type differs, is kept unchanged |
| `Catalog.SubtractIdempotent` | UIKitSymbols/UIKitSymbols.swift:183-185 | subtracting the same base twice changes nothing more |
| `Catalog.ControllerSubtraction` | UIKitSymbols/UIKitSymbols.swift:186-193 | the two passes remove exactly the entries equal to the controller base's or the view base's, and their order does not matter |
| `Catalog.SpecialViewExample` | UIKitSymbols/UIKitSymbols.swift:181-185 | `{x: F, y: F, tint: C}` less `{x: F, y: F}` is `{tint: C}` |
| `Catalog.PropertiesOf` | UIKitSymbols/UIKitSymbols.swift:178-196 | a view keeps exactly its entries not inherited from UIView; a controller keeps exactly those inherited from neither UIViewController nor UIView; every kept entry has the class's own type; an unresolved or other class gets an empty map |
| `Catalog.BuildCatalog` | UIKitSymbols/UIKitSymbols.swift:176-198 | the result has one key per listed name, duplicates collapsing, and maps each to `PropertiesOf` |
| `Catalog.GetProperties` | UIKitSymbols/UIKitSymbols.swift:16-200 | a name is a key iff it is supplemental, or it passes the filter and is `SKView` or an enumerated class; each key maps to `PropertiesOf`; the result is `CatalogOf` the inputs |
| `SymbolTable.BuildLayoutToolSymbols` | UIKitSymbols/UIKitSymbols.swift:208-235 | the generated text is `SymbolFile` of the catalog that `getProperties` returns, so a given runtime always yields the same text |
| `SymbolTable.Generate` | UIKitSymbols/UIKitSymbols.swift:209-235 | the nested loops over sorted names and sorted properties, wrapped in the fixed header and footer, yield `SymbolFile` of the catalog |
| `SymbolTable.ClassSymbols` | UIKitSymbols/UIKitSymbols.swift:212-226 | one class's statement is the rendering of its block: `[:]` for an empty map, otherwise its property lines between brackets |
| `SymbolTable.PropertyLines` | UIKitSymbols/UIKitSymbols.swift:218-224 | the inner loop writes one line per available property, in ascending order, skipping unavailable ones |
| `SymbolTable.RenderEntry` | UIKitSymbols/UIKitSymbols.swift:223 | one property line: eight spaces, the quoted property, `: `, the quoted type text, `,` and a newline |
| `SymbolTable.BlockHead` | UIKitSymbols/UIKitSymbols.swift:213 | the opening of a class's statement: four spaces, `symbols["`, the name, `"] = [` |
| `SymbolTable.RenderBlock` | UIKitSymbols/UIKitSymbols.swift:213-226 | a class's statement: the head, then `:]` and a newline for an empty map, otherwise a newline, the property lines and `    ]` with a newline |
| `SymbolTable.SymbolFile` | UIKitSymbols/UIKitSymbols.swift:229-235 | the whole file: the fixed header `Preamble` (copyright, import, note, opening of `UIKitSymbols`), the statements of all classes, then the fixed footer `Postamble` (`return symbols`, `}()`) |
| `SymbolTable.SingleClassTable` | UIKitSymbols/UIKitSymbols.swift:211-227 | a catalog of one class is written as that class's statement alone |
| `SymbolTable.TableOrder` | UIKitSymbols/UIKitSymbols.swift:211-227 | the table has exactly one block per catalog key, in strictly ascending name order |
| `SymbolTable.AvailableEntriesSpec` | UIKitSymbols/UIKitSymbols.swift:218-224 | the lines for ascending keys are in ascending order and are exactly the available entries, with their types |
| `SymbolTable.BlockContents` | UIKitSymbols/UIKitSymbols.swift:214-225 | a block is the `[:]` form iff the map is empty; its lines are exactly the available properties, with their types, in ascending order; unavailable ones never appear |
| `SymbolTable.EmptyBlocks` | UIKitSymbols/UIKitSymbols.swift:214-225 | an empty map is written `[:]\n`; a non-empty map whose types are all unavailable is written `[\n    ]\n` |
| `Completions.TagRow` | UIKitSymbols/UIKitSymbols.swift:266 | a class's row: trigger is the class name, contents are the name followed by ` $0/>` |
| `Completions.AttrRow` | UIKitSymbols/UIKitSymbols.swift:272 | a property's row: trigger is the property, a tab and the type text; contents are the property followed by `=\"$0\"` |
| `Completions.AddIfAbsent` | UIKitSymbols/UIKitSymbols.swift:273-275 | the row is listed afterwards; the set of rows gains exactly it; earlier rows stay in place; the list grows by one iff the row was absent |
| `Completions.StaticRowsAreAttrRows` | UIKitSymbols/UIKitSymbols.swift:258-262 | the three fixed rows, written as the literals they are, equal the attribute rows of `outlet` (String), `template` (URL) and `xml` (URL) |
| `Completions.CompletionsText` | UIKitSymbols/UIKitSymbols.swift:279-283 | the whole file: `{`, the `scope` line, `"completions": [`, the rows joined with a comma and a newline plus eight spaces, then `]` and `}` |
| `Completions.BuildSublimeCompletions` | UIKitSymbols/UIKitSymbols.swift:257-283 | the generated text is `CompletionsFile` of the catalog that `getProperties` returns |
| `Completions.Generate` | UIKitSymbols/UIKitSymbols.swift:258-283 | the rows built from the sorted names and joined with `",\n        "` inside the fixed frame are `CompletionsFile` of the catalog |
| `Completions.ClassRows` | UIKitSymbols/UIKitSymbols.swift:265-276 | per class, the tag row is appended unconditionally, then each available property's row in ascending order unless an equal row is present |
| `Completions.AddPropsExtends` | UIKitSymbols/UIKitSymbols.swift:272-275 | adding property rows only appends: the earlier rows stay in place |
| `Completions.AddClassesExtends` | UIKitSymbols/UIKitSymbols.swift:264-277 | processing classes only appends to the row list |
| `Completions.RowsStartWithStatic` | UIKitSymbols/UIKitSymbols.swift:258-262 | the list begins with exactly the three fixed rows, in their order |
| `Completions.TagIsNotAttr` | UIKitSymbols/UIKitSymbols.swift:266-272 | a tag row never equals an attribute row (nor so a fixed row), whatever the names contain |
| `Completions.TagRowInjective` | UIKitSymbols/UIKitSymbols.swift:266 | different class names give different tag rows |
| `Completions.RowsWellFormed` | UIKitSymbols/UIKitSymbols.swift:258-277 | the final list has no duplicate rows, its tag rows are in strictly ascending class-name order, and every tag row names a catalog class |
| `Completions.ClassesRowsMembers` | UIKitSymbols/UIKitSymbols.swift:264-277 | a row is added by the class loop iff it is the tag row or an available property's row of one of the classes |
| `Completions.RowsContents` | UIKitSymbols/UIKitSymbols.swift:258-277 | a row is listed iff it is a fixed row, the tag row of a catalog class, or the row of an available property of one; unavailable properties add no row |
| `Scenarios.LabelBlock` | UIKitSymbols/UIKitSymbols.swift:214-225 | the label's block is non-empty and lists `text` only; the unavailable `enabled` is skipped |
| `Scenarios.LabelSymbols` | UIKitSymbols/UIKitSymbols.swift:213-225 | the label's statement is `    symbols["UILabel"] = [`, the line `        "text": "String",` and `    ]` |
| `Scenarios.LabelSymbolFile` | UIKitSymbols/UIKitSymbols.swift:208-235 | the symbol table for the one-class catalog is the header, that statement and the footer |
| `Scenarios.LabelRows` | UIKitSymbols/UIKitSymbols.swift:258-277 | the completion rows for the catalog are the three fixed rows, the `UILabel` tag row and the row of `text`, in that order |

## Left out

- Class enumeration and loading are not modelled: `objc_copyClassList`, `class_getSuperclass`, `isSubclass(of:)`, the forced loading by `AVPlayerViewController()` and `WKWebView()`. They are runtime calls; the class list is an input `seq<LoadedClass>` that carries each class's superclass flag and category.
- `NSClassFromString` and the `as UIView.Type` / `as UIViewController.Type` casts are replaced by the input `Registry`. The model assumes the same name always resolves to the same class.
- `expressionTypes` and the internals of `RuntimeType` are left out: they are defined in the Layout module, which is not part of this model. The two base maps and each class's map are inputs. `RuntimeType`'s `==` is taken as equality of its printed text and availability, and `\(type)` as that text.
- The `#available(iOS 11.0, *)` check is a host query that fails the test before any output is built, so neither output is produced in that case.
- Path construction, `FileManager.fileExists`, the atomic `write(to:)` and the XCTest assertions are file I/O and test plumbing. The model stops at the text that would be written.
- Swift's `String` comparison and `hasPrefix` work on Unicode extended grapheme clusters. The model compares and slices by character (`char`) and does no normalisation. The two agree on the ASCII class and property names UIKit uses.
- String interpolation is modelled as plain concatenation of the name, the property and `Show(type)`, with no escaping.
- `UInt32` class counts and the unsafe buffer over the class list are not modelled; the class list is a sequence.
