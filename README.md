# knime-json-node-doc-generator, modelled in Dafny

The generator reads KNIME's node repository and writes it out as JSON documentation:
a category tree whose leaves are node documents, and a tree of port types. This project
models the logic of that generator between the KNIME runtime and the JSON writer, in
two revisions of the application (the earlier one next to `RepositoryManager`, the
current one under `application/`) and the earlier seleniumnodes parser, and proves what
each piece promises.

- **Repository preprocessing** (`CategoryDeclarations`, `RepositoryModel`,
  `RepositoryManagement`): duplicate category declarations are removed, keeping the
  first of each path and level-id and warning when names differ; the comparator orders
  declarations by path depth; each node is placed into its category, or into
  "/uncategorized" when the category is unknown or locked against the node's vendor;
  deprecated IDs are recorded; empty categories are pruned; and the repository is read
  lazily, on the first `getRoot` or `isDeprecated`.
- **Category tree assembly** (`RepositoryTree`, `Generator`): the recursive `generate`
  in both revisions. It applies the plugin and category-path filters and the
  deprecation rule, and attaches a category exactly when one of its children reports
  success. The category path is normalised, and `getCategoryIdentifier` is modelled too.
- **Port documentation** (`PortMerge`, `PortHierarchy`, `PortTypeDocs`, `HexColor`):
  documented and runtime ports are merged; dynamic port groups are joined by group
  identifier; the `PortObject` class hierarchy is walked ancestors first, with one
  builder per class and children deduplicated by class; colours become six-digit hex
  strings.
- **Description parsing** (`Markup`, `NodeDocJsonParser`, `SeleniumNodeDocJsonParser`):
  both parsers work over an element tree with descendant selectors. This covers tabs
  versus flat options, in-port optional flags, views, whitespace trimming and
  collapsing, and the table classes of the introduction.
- **Documentation objects** (`NodeDocs`, `LegacyDocs`, `CategoryDocs`,
  `SeleniumCategoryDocs`, `JavaLists`): builders with lists created on first use, copy
  on build, mirrored compatibility fields and the recursive plugin collection.
  `ArrayList` is modelled as a heap object, so shared lists behave as in Java.

Code that changes state is modelled as classes with `modifies` clauses, and loops are
methods with invariants. Each such method is proved equal to a specification function,
and the properties of that function are proved as lemmas.

## Model

| member | source | states |
|---|---|---|
| Wrappers.Collect | de.philippkatz.knime.jsondocgen.application/src/de/philippkatz/knime/jsondocgen/NodeDocJsonParser.java:120-133 | a loop of throwing steps fails exactly when some step fails, with the first failure; otherwise it yields every step's value in order |
| JavaStrings.Trim | de.philippkatz.knime.jsondocgen.application/src/de/philippkatz/knime/jsondocgen/NodeDocJsonParser.java:116-118 | `String.trim()` returns a contiguous slice of its argument whose ends are above U+0020, empty exactly when every character is at most U+0020 |
| JavaStrings.TrimKeepsTrimmed | de.philippkatz.knime.jsondocgen.application/src/de/philippkatz/knime/jsondocgen/NodeDocJsonParser.java:116-118 | trimming a string whose ends are already above U+0020 leaves it unchanged |
| JavaStrings.TrimIdempotent | de.philippkatz.knime.jsondocgen.application/src/de/philippkatz/knime/jsondocgen/NodeDocJsonParser.java:116-118 | trimming twice gives the same string as trimming once |
| JavaStrings.IndexOf | de.philippkatz.knime.jsondocgen.application/src/de/philippkatz/knime/jsondocgen/RepositoryManager.java:266 | `indexOf(c, from)` is the first position at or after `from` (clamped at 0) holding `c`, and -1 exactly when there is none |
| JavaStrings.ReplaceChar | de.philippkatz.knime.jsondocgen.application/src/de/philippkatz/knime/jsondocgen/JsonNodeDocuGenerator.java:217 | `replaceAll("/", ".")` keeps the length and replaces exactly the slashes |
| JavaStrings.CollapseWhitespace | de.philippkatz.knime.jsondocgenerator/src/com/seleniumnodes/util/jsondocgenerator/NodeDocJsonParser.java:124-126 | `replaceAll("\\s+", " ")` leaves no two neighbouring whitespace characters and no whitespace other than the blank, keeps whether the string starts with whitespace, and is empty only for the empty string |
| JavaStrings.CollapseKeepsCollapsed | de.philippkatz.knime.jsondocgenerator/src/com/seleniumnodes/util/jsondocgenerator/NodeDocJsonParser.java:124-126 | collapsing a string that has no whitespace run leaves it unchanged |
| JavaStrings.CollapsedSlice | de.philippkatz.knime.jsondocgenerator/src/com/seleniumnodes/util/jsondocgenerator/NodeDocJsonParser.java:124-126 | every slice of a collapsed string is collapsed, so trimming keeps it collapsed |
| JavaStrings.ValueOf | de.philippkatz.knime.jsondocgen.application/src/de/philippkatz/knime/jsondocgen/NodeDocJsonParser.java:124 | `Integer.valueOf` throws for null, the empty string and anything but an optionally signed string of decimal digits of any script, as `Character.digit` reads them, whose value is in 32-bit range; a digit string whose value fits gives that value |
| JavaStrings.ValueOfDecimalString | de.philippkatz.knime.jsondocgen.application/src/de/philippkatz/knime/jsondocgen/NodeDocJsonParser.java:124 | `Integer.valueOf` reads back every 32-bit integer written in decimal |
| JavaLists.JavaList.constructor | de.philippkatz.knime.jsondocgen.application/src/de/philippkatz/knime/jsondocgen/docs/NodeDoc.java:62 | a new `ArrayList` is empty |
| JavaLists.JavaList.Copy | de.philippkatz.knime.jsondocgen.application/src/de/philippkatz/knime/jsondocgen/RepositoryManager.java:172-178 | `new ArrayList<>(source)` holds exactly the source's elements |
| JavaLists.JavaList.Add | de.philippkatz.knime.jsondocgen.application/src/de/philippkatz/knime/jsondocgen/docs/NodeDoc.java:64 | `add` appends at the end and changes nothing else |
| JavaLists.JavaList.RemoveAt | de.philippkatz.knime.jsondocgen.application/src/de/philippkatz/knime/jsondocgen/RepositoryManager.java:406 | `remove(index)` drops the element at `index` and shifts the later ones down by one |
| JavaLists.CopyOrNull | de.philippkatz.knime.jsondocgen.application/src/de/philippkatz/knime/jsondocgen/docs/AbstractDoc.java:84-86 | `copyOrNull` is null exactly for null, otherwise a list with the same elements |
| HexColor.Unsigned | application/src/de/philippkatz/knime/jsondocgen/JsonNodeDocuGenerator.java:387 | the two's-complement bit pattern `toHexString` prints: the value itself when non-negative, the value plus 2^32 when negative |
| HexColor.ToHexString | application/src/de/philippkatz/knime/jsondocgen/JsonNodeDocuGenerator.java:387 | `Integer.toHexString` is a non-empty lower-case hex string denoting its argument, with no leading zero unless it is "0" |
| HexColor.MakeHexColor | application/src/de/philippkatz/knime/jsondocgen/JsonNodeDocuGenerator.java:384-389 | the colour string has exactly six lower-case hex digits and denotes the colour's low 24 bits |
| HexColor.PaddingKeepsValue | application/src/de/philippkatz/knime/jsondocgen/JsonNodeDocuGenerator.java:388 | the "000000" padding does not change the value the digits denote |
| HexColor.SuffixValue | application/src/de/philippkatz/knime/jsondocgen/JsonNodeDocuGenerator.java:388 | keeping the last six digits takes the value modulo 16^6 |
| HexColor.SameValueSameDigits | application/src/de/philippkatz/knime/jsondocgen/JsonNodeDocuGenerator.java:384-389 | two equally long digit strings denoting the same value are the same string |
| HexColor.SameColorIffSameLowBits | application/src/de/philippkatz/knime/jsondocgen/JsonNodeDocuGenerator.java:384-389 | two colours give the same string exactly when their low 24 bits agree (the alpha byte is dropped) |
| HexColor.RgbColorRoundTrip | application/src/de/philippkatz/knime/jsondocgen/JsonNodeDocuGenerator.java:384-389 | the string of a colour below 2^24 denotes the colour itself |
| HexColor.ColorString | application/src/de/philippkatz/knime/jsondocgen/JsonNodeDocuGenerator.java:384-389 | the colour string is the only six-digit string denoting the low 24 bits |
| HexColor.GreenColor | tests/src/de/philippkatz/knime/jsondocgen/JsonNodeDocuGeneratorTest.java:79 | colour 32768 gives "008000" |
| HexColor.BlackColor | tests/src/de/philippkatz/knime/jsondocgen/JsonNodeDocuGeneratorTest.java:80 | colour 0 gives "000000" |
| HexColor.OpaqueGrayColor | tests/src/de/philippkatz/knime/jsondocgen/JsonNodeDocuGeneratorTest.java:81 | colour -6579301 gives "9b9b9b" |
| HexColor.DarkRedColor | tests/src/de/philippkatz/knime/jsondocgen/JsonNodeDocuGeneratorTest.java:82 | colour 8388608 gives "800000" |
| JavaStrings.DigitFrom | de.philippkatz.knime.jsondocgen.application/src/de/philippkatz/knime/jsondocgen/NodeDocJsonParser.java:124 | the digit lookup from run `k` on yields -1 or a digit value 0 to 9 |
| JavaStrings.DecimalDigit | de.philippkatz.knime.jsondocgen.application/src/de/philippkatz/knime/jsondocgen/NodeDocJsonParser.java:124 | `Character.digit(c, 10)` is -1 or a digit value 0 to 9, and `c - '0'` for an ASCII digit |
| JavaStrings.OtherScriptDigits | de.philippkatz.knime.jsondocgen.application/src/de/philippkatz/knime/jsondocgen/NodeDocJsonParser.java:124 | `Integer.valueOf` reads digits of other scripts: Arabic-Indic three is 3 and "-" followed by Devanagari four and two is -42 |
| JavaStrings.DecimalString | de.philippkatz.knime.jsondocgen.application/src/de/philippkatz/knime/jsondocgen/NodeDocJsonParser.java:124 | a natural number written in decimal is a non-empty string of digits |
| HexColor.DigitChar | application/src/de/philippkatz/knime/jsondocgen/JsonNodeDocuGenerator.java:387 | `Character.forDigit(d, 16)` writes a hex digit that reads back as `d` |
| HexColor.HexValue | application/src/de/philippkatz/knime/jsondocgen/JsonNodeDocuGenerator.java:387-388 | a string of k hex digits denotes a number below 16^k |
| HexColor.ZeroPrefixKeepsValue | application/src/de/philippkatz/knime/jsondocgen/JsonNodeDocuGenerator.java:388 | leading zeros do not change the value a hex string denotes |
| HexColor.ZerosDenoteZero | application/src/de/philippkatz/knime/jsondocgen/JsonNodeDocuGenerator.java:388 | a string of zeros denotes 0 |
| HexColor.DigitValueInjective | application/src/de/philippkatz/knime/jsondocgen/JsonNodeDocuGenerator.java:387 | two hex digits with the same value are the same character |
| Markup.AttributeValue | de.philippkatz.knime.jsondocgenerator/src/com/seleniumnodes/util/jsondocgenerator/NodeDocJsonParser.java:57 | an attribute read is null exactly when no attribute has that name, and otherwise the value of one that has it |
| Markup.Select | de.philippkatz.knime.jsondocgenerator/src/com/seleniumnodes/util/jsondocgenerator/NodeDocJsonParser.java:45-47 | a descendant selector yields only elements carrying the selector's last tag |
| Markup.SelectionText | de.philippkatz.knime.jsondocgenerator/src/com/seleniumnodes/util/jsondocgenerator/NodeDocJsonParser.java:45 | `text()` of an empty selection is the empty string, never null, and of a single node its whole text |
| Markup.SelectionHtml | de.philippkatz.knime.jsondocgenerator/src/com/seleniumnodes/util/jsondocgenerator/NodeDocJsonParser.java:47 | `html()` is null exactly for an empty selection, otherwise the inner markup of the first selected node |
| Markup.SelectionAttr | de.philippkatz.knime.jsondocgenerator/src/com/seleniumnodes/util/jsondocgenerator/NodeDocJsonParser.java:57 | `attr(name)` is null on an empty selection, otherwise the first selected element's attribute |
| Markup.Tokens | de.philippkatz.knime.jsondocgenerator/src/com/seleniumnodes/util/jsondocgenerator/NodeDocJsonParser.java:108 | the class tokens read from a class attribute are non-empty and blank-free |
| Markup.TokensOfJoin | de.philippkatz.knime.jsondocgenerator/src/com/seleniumnodes/util/jsondocgenerator/NodeDocJsonParser.java:108 | classes written blank-separated read back as the same class list |
| Markup.AddToken | de.philippkatz.knime.jsondocgenerator/src/com/seleniumnodes/util/jsondocgenerator/NodeDocJsonParser.java:108 | adding a class to a class set keeps the earlier classes in order, adds the new one, and keeps the set free of duplicates |
| Markup.Dedup | de.philippkatz.knime.jsondocgenerator/src/com/seleniumnodes/util/jsondocgenerator/NodeDocJsonParser.java:108 | the class set read from an attribute has the same classes, each once |
| Markup.DedupKeepsDistinct | de.philippkatz.knime.jsondocgenerator/src/com/seleniumnodes/util/jsondocgenerator/NodeDocJsonParser.java:108 | a class list without duplicates is its own class set |
| Markup.AddClasses | de.philippkatz.knime.jsondocgenerator/src/com/seleniumnodes/util/jsondocgenerator/NodeDocJsonParser.java:108 | `addClass(a, b, c)` yields exactly the former classes plus the added ones, former ones first and in order, no duplicates |
| Markup.SetAttribute | de.philippkatz.knime.jsondocgenerator/src/com/seleniumnodes/util/jsondocgenerator/NodeDocJsonParser.java:108 | after setting an attribute its value reads back |
| Markup.AddClassAttributeEffect | de.philippkatz.knime.jsondocgenerator/src/com/seleniumnodes/util/jsondocgenerator/NodeDocJsonParser.java:108 | after `addClass` an element's classes are exactly its former classes plus the added ones |
| Markup.ClassifyTables | de.philippkatz.knime.jsondocgenerator/src/com/seleniumnodes/util/jsondocgenerator/NodeDocJsonParser.java:106-108 | rewriting the intro keeps every node's kind, tag and number of children |
| Markup.TablesClassified | de.philippkatz.knime.jsondocgenerator/src/com/seleniumnodes/util/jsondocgenerator/NodeDocJsonParser.java:106-108 | after `transformIntro` every table in the intro carries the classes "table", "table-striped" and "table-bordered" |
| Markup.PlainTableMarkup | src/com/seleniumnodes/util/jsondocgenerator/NodeDocJsonParserTest.java:22 | a table without a class attribute gets exactly one attribute, `class="table table-striped table-bordered"`, and its classes are then exactly those three |
| Markup.Find | de.philippkatz.knime.jsondocgenerator/src/com/seleniumnodes/util/jsondocgenerator/NodeDocJsonParser.java:58 | `$(tag)` on a selection yields only elements with that tag, and nothing on an empty selection |
| Markup.Descendants | de.philippkatz.knime.jsondocgenerator/src/com/seleniumnodes/util/jsondocgenerator/NodeDocJsonParser.java:45 | every element found is tagged as asked, and every such child of the element is found |
| Markup.TablesClassifiedIn | de.philippkatz.knime.jsondocgenerator/src/com/seleniumnodes/util/jsondocgenerator/NodeDocJsonParser.java:106-108 | after the rewrite every table among and inside the nodes carries the three classes |
| Markup.DescendantsIn | de.philippkatz.knime.jsondocgenerator/src/com/seleniumnodes/util/jsondocgenerator/NodeDocJsonParser.java:45 | the search over a node list yields only elements with the tag, and every such node of the list itself |
| Markup.DescendantsExact | de.philippkatz.knime.jsondocgenerator/src/com/seleniumnodes/util/jsondocgenerator/NodeDocJsonParser.java:45 | a node is found below an element exactly when it carries the tag and lies strictly inside the element |
| Markup.DescendantsInExact | de.philippkatz.knime.jsondocgenerator/src/com/seleniumnodes/util/jsondocgenerator/NodeDocJsonParser.java:45 | a node is found in a node list exactly when it carries the tag and is one of the nodes or lies inside one |
| Markup.FindExact | de.philippkatz.knime.jsondocgenerator/src/com/seleniumnodes/util/jsondocgenerator/NodeDocJsonParser.java:58 | `$(tag)` on a selection finds a node exactly when it carries the tag and lies inside some selected element |
| Markup.SelectExact | de.philippkatz.knime.jsondocgenerator/src/com/seleniumnodes/util/jsondocgenerator/NodeDocJsonParser.java:45-47 | `$("t1 ... tk")` finds a node exactly when it carries tk and lies inside some node `$("t1 ... tk-1")` finds |
| Markup.AddClassAttribute | de.philippkatz.knime.jsondocgenerator/src/com/seleniumnodes/util/jsondocgenerator/NodeDocJsonParser.java:108 | `addClass` leaves an element's attributes as they are when it already has every class |
| Markup.AddingPresentClasses | de.philippkatz.knime.jsondocgenerator/src/com/seleniumnodes/util/jsondocgenerator/NodeDocJsonParser.java:108 | adding classes that are all in the class set leaves the set as it is |
| Markup.ClassifyTablesIn | de.philippkatz.knime.jsondocgenerator/src/com/seleniumnodes/util/jsondocgenerator/NodeDocJsonParser.java:106-108 | rewriting a node list rewrites each node in place, one for one |
| Markup.PlainTableTokens | de.philippkatz.knime.jsondocgenerator/src/com/seleniumnodes/util/jsondocgenerator/NodeDocJsonParser.java:108 | the class attribute written for a plain table reads back as "table", "table-striped" and "table-bordered" |
| Markup.PlainTableAttributes | de.philippkatz.knime.jsondocgenerator/src/com/seleniumnodes/util/jsondocgenerator/NodeDocJsonParser.java:108 | a table without attributes gains exactly one, `class` with the three classes blank-separated |
| SeleniumNodeDocJsonParser.CollapseAndTrim | de.philippkatz.knime.jsondocgenerator/src/com/seleniumnodes/util/jsondocgenerator/NodeDocJsonParser.java:124-126 | `trim` is null exactly for null, and otherwise has no character up to U+0020 at either end |
| SeleniumNodeDocJsonParser.CollapseAndTrimShape | de.philippkatz.knime.jsondocgenerator/src/com/seleniumnodes/util/jsondocgenerator/NodeDocJsonParser.java:124-126 | a trimmed value has no whitespace at either end, no whitespace other than the blank and no two neighbouring whitespace characters |
| SeleniumNodeDocJsonParser.CollapseAndTrimIdempotent | de.philippkatz.knime.jsondocgenerator/src/com/seleniumnodes/util/jsondocgenerator/NodeDocJsonParser.java:124-126 | trimming a trimmed value again changes nothing |
| SeleniumNodeDocJsonParser.OptionOf | de.philippkatz.knime.jsondocgenerator/src/com/seleniumnodes/util/jsondocgenerator/NodeDocJsonParser.java:97-101 | an option carries only the element's `name` attribute and its trimmed inner markup |
| SeleniumNodeDocJsonParser.OptionsOf | de.philippkatz.knime.jsondocgenerator/src/com/seleniumnodes/util/jsondocgenerator/NodeDocJsonParser.java:95-104 | one option per selected element, in document order |
| SeleniumNodeDocJsonParser.ParseOptions | de.philippkatz.knime.jsondocgenerator/src/com/seleniumnodes/util/jsondocgenerator/NodeDocJsonParser.java:95-104 | `parseOptions` returns exactly the options of the selection, one per element, in order |
| SeleniumNodeDocJsonParser.TabDescriptionOf | de.philippkatz.knime.jsondocgenerator/src/com/seleniumnodes/util/jsondocgenerator/NodeDocJsonParser.java:58-61 | a tab's description is null exactly when the tab has no `description` element, and otherwise the trimmed text of those elements |
| SeleniumNodeDocJsonParser.TabOf | de.philippkatz.knime.jsondocgenerator/src/com/seleniumnodes/util/jsondocgenerator/NodeDocJsonParser.java:56-62 | a tab takes its `name` attribute, a description only when it has a `description` element, and the options inside it |
| SeleniumNodeDocJsonParser.TabsOf | de.philippkatz.knime.jsondocgenerator/src/com/seleniumnodes/util/jsondocgenerator/NodeDocJsonParser.java:55-64 | one option tab per `tab` element, in document order |
| SeleniumNodeDocJsonParser.ReadTab | de.philippkatz.knime.jsondocgenerator/src/com/seleniumnodes/util/jsondocgenerator/NodeDocJsonParser.java:56-63 | the tab loop's body builds the tab from its name, its description when present, and its options |
| SeleniumNodeDocJsonParser.ParseOptionTabs | de.philippkatz.knime.jsondocgenerator/src/com/seleniumnodes/util/jsondocgenerator/NodeDocJsonParser.java:54-64 | the tab loop yields one option tab per `tab` element, in document order |
| SeleniumNodeDocJsonParser.InPortOptional | de.philippkatz.knime.jsondocgenerator/src/com/seleniumnodes/util/jsondocgenerator/NodeDocJsonParser.java:136 | an input port is optional exactly when its attribute is "true" ignoring case; a missing attribute means not optional |
| SeleniumNodeDocJsonParser.PortOf | de.philippkatz.knime.jsondocgenerator/src/com/seleniumnodes/util/jsondocgenerator/NodeDocJsonParser.java:131-137 | a port fails exactly when its index cannot be read; otherwise it has that index, the `name` attribute, the trimmed inner markup, and an `optional` flag exactly when it is an input port |
| SeleniumNodeDocJsonParser.PortsOf | de.philippkatz.knime.jsondocgenerator/src/com/seleniumnodes/util/jsondocgenerator/NodeDocJsonParser.java:128-141 | the port list fails exactly when some index is unreadable; otherwise it holds one port per element, in document order |
| SeleniumNodeDocJsonParser.ReadPort | de.philippkatz.knime.jsondocgenerator/src/com/seleniumnodes/util/jsondocgenerator/NodeDocJsonParser.java:131-138 | the port loop's body reads exactly the port `PortOf` describes |
| SeleniumNodeDocJsonParser.ParsePorts | de.philippkatz.knime.jsondocgenerator/src/com/seleniumnodes/util/jsondocgenerator/NodeDocJsonParser.java:128-141 | `parsePorts` throws exactly when some index is unreadable, and otherwise returns the ports in document order |
| SeleniumNodeDocJsonParser.PortsOfBadIndex | de.philippkatz.knime.jsondocgenerator/src/com/seleniumnodes/util/jsondocgenerator/NodeDocJsonParser.java:132 | one unreadable port index makes the whole parse fail |
| SeleniumNodeDocJsonParser.PortsReadStep | de.philippkatz.knime.jsondocgenerator/src/com/seleniumnodes/util/jsondocgenerator/NodeDocJsonParser.java:128-141 | after one more port reads, the ports read so far are the first ones in order, this one last |
| SeleniumNodeDocJsonParser.PortsOfAllRead | de.philippkatz.knime.jsondocgenerator/src/com/seleniumnodes/util/jsondocgenerator/NodeDocJsonParser.java:128-141 | when every port reads, the list is exactly those ports in order |
| SeleniumNodeDocJsonParser.ViewOf | de.philippkatz.knime.jsondocgenerator/src/com/seleniumnodes/util/jsondocgenerator/NodeDocJsonParser.java:79-83 | a view fails exactly when its index cannot be read; otherwise it has that index, the `name` attribute and the trimmed inner markup |
| SeleniumNodeDocJsonParser.ViewsOf | de.philippkatz.knime.jsondocgenerator/src/com/seleniumnodes/util/jsondocgenerator/NodeDocJsonParser.java:76-86 | the view list fails exactly when some index is unreadable; otherwise one view per element, in order |
| SeleniumNodeDocJsonParser.ReadView | de.philippkatz.knime.jsondocgenerator/src/com/seleniumnodes/util/jsondocgenerator/NodeDocJsonParser.java:79-83 | the view loop's body reads exactly the view `ViewOf` describes |
| SeleniumNodeDocJsonParser.ParseViews | de.philippkatz.knime.jsondocgenerator/src/com/seleniumnodes/util/jsondocgenerator/NodeDocJsonParser.java:77-85 | the view loop throws exactly when some index is unreadable, and otherwise yields the views in order |
| SeleniumNodeDocJsonParser.ViewsOfBadIndex | de.philippkatz.knime.jsondocgenerator/src/com/seleniumnodes/util/jsondocgenerator/NodeDocJsonParser.java:80 | one unreadable view index makes the whole parse fail |
| SeleniumNodeDocJsonParser.ViewsReadStep | de.philippkatz.knime.jsondocgenerator/src/com/seleniumnodes/util/jsondocgenerator/NodeDocJsonParser.java:76-86 | after one more view reads, the views read so far are the first ones in order, this one last |
| SeleniumNodeDocJsonParser.ViewsOfAllRead | de.philippkatz.knime.jsondocgenerator/src/com/seleniumnodes/util/jsondocgenerator/NodeDocJsonParser.java:76-86 | when every view reads, the list is exactly those views in order |
| SeleniumNodeDocJsonParser.ParseSpec | de.philippkatz.knime.jsondocgenerator/src/com/seleniumnodes/util/jsondocgenerator/NodeDocJsonParser.java:32-89 | `parse` fails exactly when some input-port, output-port or view index is unreadable |
| SeleniumNodeDocJsonParser.ParseSpecValue | de.philippkatz.knime.jsondocgenerator/src/com/seleniumnodes/util/jsondocgenerator/NodeDocJsonParser.java:43-87 | a successful parse holds the header, the options and the ports and views read one by one |
| SeleniumNodeDocJsonParser.ParsedOptions | de.philippkatz.knime.jsondocgenerator/src/com/seleniumnodes/util/jsondocgenerator/NodeDocJsonParser.java:50-68 | options sit either in tabs or flat and never both: option tabs exactly when a `tab` element exists, one per tab with its own options; otherwise the flat option list |
| SeleniumNodeDocJsonParser.ParsedTabDescriptions | de.philippkatz.knime.jsondocgenerator/src/com/seleniumnodes/util/jsondocgenerator/NodeDocJsonParser.java:58-61 | tab `i` has a description exactly when its element contains a `description` element |
| SeleniumNodeDocJsonParser.PortsOptional | de.philippkatz.knime.jsondocgenerator/src/com/seleniumnodes/util/jsondocgenerator/NodeDocJsonParser.java:135-137 | every input port carries `optional` and no output port does |
| SeleniumNodeDocJsonParser.ParsedPorts | de.philippkatz.knime.jsondocgenerator/src/com/seleniumnodes/util/jsondocgenerator/NodeDocJsonParser.java:70-72 | both port lists are set, one port per element; input ports carry `optional`, output ports leave it null |
| SeleniumNodeDocJsonParser.InPortOptionalDefault | de.philippkatz.knime.jsondocgenerator/src/com/seleniumnodes/util/jsondocgenerator/NodeDocJsonParser.java:136 | an input port without an `optional` attribute reads as not optional |
| SeleniumNodeDocJsonParser.ParsedViews | de.philippkatz.knime.jsondocgenerator/src/com/seleniumnodes/util/jsondocgenerator/NodeDocJsonParser.java:74-86 | views stay null exactly when there is no `view` element, and otherwise hold one view per element |
| SeleniumNodeDocJsonParser.ParsedHeader | de.philippkatz.knime.jsondocgenerator/src/com/seleniumnodes/util/jsondocgenerator/NodeDocJsonParser.java:45-48 | name and short description are never null, come out collapsed and trimmed and are stable under `trim`; the identifier is the argument |
| SeleniumNodeDocJsonParser.ParsedIntro | de.philippkatz.knime.jsondocgenerator/src/com/seleniumnodes/util/jsondocgenerator/NodeDocJsonParser.java:47 | the intro is null exactly without an `intro` element, and otherwise is the trimmed markup of the first one, in which every table carries the three table classes |
| SeleniumNodeDocJsonParser.PlainTableSerialized | src/com/seleniumnodes/util/jsondocgenerator/NodeDocJsonParserTest.java:22 | a table without attributes in the intro is written as `<table class="table table-striped table-bordered">` followed by its content |
| SeleniumNodeDocJsonParser.ClassedTableSerialized | src/com/seleniumnodes/util/jsondocgenerator/NodeDocJsonParserTest.java:22 | a table with one class attribute is written with that attribute in the opening tag |
| SeleniumNodeDocJsonParser.NodeDoc.constructor | de.philippkatz.knime.jsondocgenerator/src/com/seleniumnodes/util/jsondocgenerator/NodeDocJsonParser.java:43 | a new `NodeDoc` has every field null |
| SeleniumNodeDocJsonParser.NodeDoc.SetHeader | de.philippkatz.knime.jsondocgenerator/src/com/seleniumnodes/util/jsondocgenerator/NodeDocJsonParser.java:45-48 | the header assignments set name, short description, intro and identifier and nothing else |
| SeleniumNodeDocJsonParser.NodeDoc.ReadOptions | de.philippkatz.knime.jsondocgenerator/src/com/seleniumnodes/util/jsondocgenerator/NodeDocJsonParser.java:52-68 | with tabs only the option tabs are set, otherwise only the flat options |
| SeleniumNodeDocJsonParser.NodeDoc.ReadPorts | de.philippkatz.knime.jsondocgenerator/src/com/seleniumnodes/util/jsondocgenerator/NodeDocJsonParser.java:70-72 | both port lists are set, or the first unreadable index is reported |
| SeleniumNodeDocJsonParser.NodeDoc.ReadViews | de.philippkatz.knime.jsondocgenerator/src/com/seleniumnodes/util/jsondocgenerator/NodeDocJsonParser.java:74-86 | views are set only when the document has some, or the first unreadable index is reported |
| SeleniumNodeDocJsonParser.Parse | de.philippkatz.knime.jsondocgenerator/src/com/seleniumnodes/util/jsondocgenerator/NodeDocJsonParser.java:32-89 | `parse` returns a fresh `NodeDoc` holding exactly what `ParseSpec` describes, or fails exactly when `ParseSpec` does |
| SeleniumNodeDocJsonParser.HeaderOf | de.philippkatz.knime.jsondocgenerator/src/com/seleniumnodes/util/jsondocgenerator/NodeDocJsonParser.java:45-47 | the header carries the given identifier; name and short description are never null; the intro is null exactly when the document has no intro element |
| SeleniumNodeDocJsonParser.NameOf | de.philippkatz.knime.jsondocgenerator/src/com/seleniumnodes/util/jsondocgenerator/NodeDocJsonParser.java:45 | the name is never null, and empty when the document has no name element |
| SeleniumNodeDocJsonParser.ShortDescriptionOf | de.philippkatz.knime.jsondocgenerator/src/com/seleniumnodes/util/jsondocgenerator/NodeDocJsonParser.java:46 | the short description is never null, and empty when the document has no such element |
| SeleniumNodeDocJsonParser.IntroOf | de.philippkatz.knime.jsondocgenerator/src/com/seleniumnodes/util/jsondocgenerator/NodeDocJsonParser.java:47 | the intro is null exactly when the document has no intro element |
| NodeDocJsonParser.TrimOrNull | de.philippkatz.knime.jsondocgen.application/src/de/philippkatz/knime/jsondocgen/NodeDocJsonParser.java:116-118 | `trim` is null exactly for null, and otherwise a slice of its argument with no character up to U+0020 at either end |
| NodeDocJsonParser.TrimOrNullIdempotent | de.philippkatz.knime.jsondocgen.application/src/de/philippkatz/knime/jsondocgen/NodeDocJsonParser.java:116-118 | trimming a trimmed value again changes nothing |
| NodeDocJsonParser.ParseOptionalBoolean | de.philippkatz.knime.jsondocgen.application/src/de/philippkatz/knime/jsondocgen/NodeDocJsonParser.java:143-153 | `parseOptionalBoolean` is true exactly for "true" ignoring case; null and everything else give false |
| NodeDocJsonParser.OptionOf | de.philippkatz.knime.jsondocgen.application/src/de/philippkatz/knime/jsondocgen/NodeDocJsonParser.java:107-110 | an option carries the `name` attribute, the trimmed inner markup (never null) and `optional` exactly when the attribute is "true" ignoring case |
| NodeDocJsonParser.OptionsOf | de.philippkatz.knime.jsondocgen.application/src/de/philippkatz/knime/jsondocgen/NodeDocJsonParser.java:104-114 | one option per selected element, in document order |
| NodeDocJsonParser.ParseOptions | de.philippkatz.knime.jsondocgen.application/src/de/philippkatz/knime/jsondocgen/NodeDocJsonParser.java:104-114 | `parseOptions` returns exactly the options of the selection, one per element, in order |
| NodeDocJsonParser.PortOf | de.philippkatz.knime.jsondocgen.application/src/de/philippkatz/knime/jsondocgen/NodeDocJsonParser.java:123-129 | a port fails exactly when its index cannot be read; otherwise it has that index, the `name` attribute, the trimmed inner markup, and an `optional` flag exactly when it is an input port |
| NodeDocJsonParser.PortsOf | de.philippkatz.knime.jsondocgen.application/src/de/philippkatz/knime/jsondocgen/NodeDocJsonParser.java:120-133 | the port list fails exactly when some index is unreadable; otherwise one port per element, in document order |
| NodeDocJsonParser.ParsePorts | de.philippkatz.knime.jsondocgen.application/src/de/philippkatz/knime/jsondocgen/NodeDocJsonParser.java:120-133 | `parsePorts` throws exactly when some index is unreadable, and otherwise returns the ports in document order |
| NodeDocJsonParser.ReadPort | de.philippkatz.knime.jsondocgen.application/src/de/philippkatz/knime/jsondocgen/NodeDocJsonParser.java:123-130 | the port loop's body reads exactly the port `PortOf` describes |
| NodeDocJsonParser.PortsOfBadIndex | de.philippkatz.knime.jsondocgen.application/src/de/philippkatz/knime/jsondocgen/NodeDocJsonParser.java:124 | one unreadable port index makes the whole parse fail |
| NodeDocJsonParser.PortsReadStep | de.philippkatz.knime.jsondocgen.application/src/de/philippkatz/knime/jsondocgen/NodeDocJsonParser.java:120-133 | after one more port reads, the ports read so far are the first ones in order, this one last |
| NodeDocJsonParser.PortsOfAllRead | de.philippkatz.knime.jsondocgen.application/src/de/philippkatz/knime/jsondocgen/NodeDocJsonParser.java:120-133 | when every port reads, the list is exactly those ports in order |
| NodeDocJsonParser.ViewOf | de.philippkatz.knime.jsondocgen.application/src/de/philippkatz/knime/jsondocgen/NodeDocJsonParser.java:78-81 | a view fails exactly when its index cannot be read; otherwise it has that index, the `name` attribute and the trimmed inner markup |
| NodeDocJsonParser.ViewsOf | de.philippkatz.knime.jsondocgen.application/src/de/philippkatz/knime/jsondocgen/NodeDocJsonParser.java:74-85 | the view list fails exactly when some index is unreadable; otherwise one view per element, in order |
| NodeDocJsonParser.ReadView | de.philippkatz.knime.jsondocgen.application/src/de/philippkatz/knime/jsondocgen/NodeDocJsonParser.java:78-82 | the view loop's body reads exactly the view `ViewOf` describes |
| NodeDocJsonParser.ParseViews | de.philippkatz.knime.jsondocgen.application/src/de/philippkatz/knime/jsondocgen/NodeDocJsonParser.java:76-84 | the view loop throws exactly when some index is unreadable, and otherwise yields the views in order |
| NodeDocJsonParser.ViewsOfBadIndex | de.philippkatz.knime.jsondocgen.application/src/de/philippkatz/knime/jsondocgen/NodeDocJsonParser.java:79 | one unreadable view index makes the whole parse fail |
| NodeDocJsonParser.ViewsReadStep | de.philippkatz.knime.jsondocgen.application/src/de/philippkatz/knime/jsondocgen/NodeDocJsonParser.java:74-85 | after one more view reads, the views read so far are the first ones in order, this one last |
| NodeDocJsonParser.ViewsOfAllRead | de.philippkatz.knime.jsondocgen.application/src/de/philippkatz/knime/jsondocgen/NodeDocJsonParser.java:74-85 | when every view reads, the list is exactly those views in order |
| NodeDocJsonParser.TabOf | de.philippkatz.knime.jsondocgen.application/src/de/philippkatz/knime/jsondocgen/NodeDocJsonParser.java:59-61 | a tab takes its `name` attribute and the options inside it |
| NodeDocJsonParser.TabsOf | de.philippkatz.knime.jsondocgen.application/src/de/philippkatz/knime/jsondocgen/NodeDocJsonParser.java:57-63 | one option tab per `tab` element, in document order |
| NodeDocJsonParser.ParseOptionTabs | de.philippkatz.knime.jsondocgen.application/src/de/philippkatz/knime/jsondocgen/NodeDocJsonParser.java:57-63 | the tab loop yields one option tab per `tab` element, each with its own options |
| NodeDocJsonParser.InteractiveViewOf | de.philippkatz.knime.jsondocgen.application/src/de/philippkatz/knime/jsondocgen/NodeDocJsonParser.java:88-94 | the interactive view is null exactly without an `interactiveView` element, and otherwise takes its name and trimmed markup |
| NodeDocJsonParser.ParseSpec | de.philippkatz.knime.jsondocgen.application/src/de/philippkatz/knime/jsondocgen/NodeDocJsonParser.java:32-98 | `parse` fails exactly when some input-port, output-port or view index is unreadable |
| NodeDocJsonParser.ParseSpecValue | de.philippkatz.knime.jsondocgen.application/src/de/philippkatz/knime/jsondocgen/NodeDocJsonParser.java:43-96 | a successful parse holds the header, the options and the ports and views read one by one |
| NodeDocJsonParser.ParsedOptions | de.philippkatz.knime.jsondocgen.application/src/de/philippkatz/knime/jsondocgen/NodeDocJsonParser.java:53-67 | options sit either in tabs or flat and never both: option tabs exactly when a `tab` element exists, one per tab with its own options; otherwise the flat option list |
| NodeDocJsonParser.PortsOptional | de.philippkatz.knime.jsondocgen.application/src/de/philippkatz/knime/jsondocgen/NodeDocJsonParser.java:127-129 | every input port carries `optional` and no output port does |
| NodeDocJsonParser.ParsedPorts | de.philippkatz.knime.jsondocgen.application/src/de/philippkatz/knime/jsondocgen/NodeDocJsonParser.java:69-71 | both port lists are set, one port per element; input ports carry `optional`, output ports leave it null |
| NodeDocJsonParser.ParsedViews | de.philippkatz.knime.jsondocgen.application/src/de/philippkatz/knime/jsondocgen/NodeDocJsonParser.java:73-94 | views stay null exactly when there is no `view` element and otherwise hold one view per element; the interactive view stays null exactly without an `interactiveView` element |
| NodeDocJsonParser.ParsedHeader | de.philippkatz.knime.jsondocgen.application/src/de/philippkatz/knime/jsondocgen/NodeDocJsonParser.java:45-51 | name and short description are never null and come out trimmed; the identifier is the argument; icon and type are the `knimeNode` element's attributes |
| NodeDocJsonParser.NodeDoc.constructor | de.philippkatz.knime.jsondocgen.application/src/de/philippkatz/knime/jsondocgen/NodeDocJsonParser.java:43 | a new `NodeDoc` has every field null or false |
| NodeDocJsonParser.NodeDoc.SetHeader | de.philippkatz.knime.jsondocgen.application/src/de/philippkatz/knime/jsondocgen/NodeDocJsonParser.java:45-51 | the header assignments set name, short description, intro, identifier, icon, type and deprecation, and nothing else |
| NodeDocJsonParser.NodeDoc.ReadOptions | de.philippkatz.knime.jsondocgen.application/src/de/philippkatz/knime/jsondocgen/NodeDocJsonParser.java:55-67 | with tabs only the option tabs are set, otherwise only the flat options |
| NodeDocJsonParser.NodeDoc.ReadPorts | de.philippkatz.knime.jsondocgen.application/src/de/philippkatz/knime/jsondocgen/NodeDocJsonParser.java:69-71 | both port lists are set, or the first unreadable index is reported |
| NodeDocJsonParser.NodeDoc.ReadViews | de.philippkatz.knime.jsondocgen.application/src/de/philippkatz/knime/jsondocgen/NodeDocJsonParser.java:73-85 | views are set only when the document has some, or the first unreadable index is reported |
| NodeDocJsonParser.NodeDoc.ReadInteractiveView | de.philippkatz.knime.jsondocgen.application/src/de/philippkatz/knime/jsondocgen/NodeDocJsonParser.java:87-94 | the interactive view is set only when the document has one |
| NodeDocJsonParser.Parse | de.philippkatz.knime.jsondocgen.application/src/de/philippkatz/knime/jsondocgen/NodeDocJsonParser.java:32-98 | `parse` returns a fresh `NodeDoc` holding exactly what `ParseSpec` describes, or fails exactly when `ParseSpec` does |
| NodeDocJsonParser.HeaderOf | de.philippkatz.knime.jsondocgen.application/src/de/philippkatz/knime/jsondocgen/NodeDocJsonParser.java:45-51 | the header carries the given identifier; name and short description are never null; the intro is null exactly when the document has no intro element; without a `knimeNode` element icon and type are null and the node is not deprecated |
| NodeDocJsonParser.NameOf | de.philippkatz.knime.jsondocgen.application/src/de/philippkatz/knime/jsondocgen/NodeDocJsonParser.java:45 | the name is never null, and empty when the document has no name element |
| NodeDocJsonParser.ShortDescriptionOf | de.philippkatz.knime.jsondocgen.application/src/de/philippkatz/knime/jsondocgen/NodeDocJsonParser.java:46 | the short description is never null, and empty when the document has no such element |
| NodeDocJsonParser.IntroOf | de.philippkatz.knime.jsondocgen.application/src/de/philippkatz/knime/jsondocgen/NodeDocJsonParser.java:47 | the intro is null exactly when the document has no intro element |
| NodeDocJsonParser.IconOf | de.philippkatz.knime.jsondocgen.application/src/de/philippkatz/knime/jsondocgen/NodeDocJsonParser.java:49 | the icon is null without a `knimeNode` element, and otherwise the first such element's `icon` attribute |
| NodeDocJsonParser.TypeOf | de.philippkatz.knime.jsondocgen.application/src/de/philippkatz/knime/jsondocgen/NodeDocJsonParser.java:50 | the type is null without a `knimeNode` element, and otherwise the first such element's `type` attribute |
| NodeDocJsonParser.DeprecatedOf | de.philippkatz.knime.jsondocgen.application/src/de/philippkatz/knime/jsondocgen/NodeDocJsonParser.java:51 | a node is deprecated only when its description has a `knimeNode` element |
| LegacyDocs.NodeDocBuilder.constructor | de.philippkatz.knime.jsondocgen.application/src/de/philippkatz/knime/jsondocgen/NodeDoc.java:12-22 | a new builder has every reference null and every flag false |
| LegacyDocs.NodeDocBuilder.SetId | de.philippkatz.knime.jsondocgen.application/src/de/philippkatz/knime/jsondocgen/AbstractDoc.java:18-21 | overwrites `id` (last write wins), leaves every other field alone and returns the builder itself |
| LegacyDocs.NodeDocBuilder.SetName | de.philippkatz.knime.jsondocgen.application/src/de/philippkatz/knime/jsondocgen/AbstractDoc.java:23-26 | overwrites `name` (last write wins), leaves every other field alone and returns the builder itself |
| LegacyDocs.NodeDocBuilder.SetDescription | de.philippkatz.knime.jsondocgen.application/src/de/philippkatz/knime/jsondocgen/AbstractDoc.java:28-31 | overwrites `description` (last write wins), leaves every other field alone and returns the builder itself |
| LegacyDocs.NodeDocBuilder.SetContributingPlugin | de.philippkatz.knime.jsondocgen.application/src/de/philippkatz/knime/jsondocgen/AbstractDoc.java:33-36 | overwrites `contributingPlugin` (last write wins), leaves every other field alone and returns the builder itself |
| LegacyDocs.NodeDocBuilder.SetIconBase64 | de.philippkatz.knime.jsondocgen.application/src/de/philippkatz/knime/jsondocgen/AbstractDoc.java:38-41 | overwrites `iconBase64` (last write wins), leaves every other field alone and returns the builder itself |
| LegacyDocs.NodeDocBuilder.SetAfterId | de.philippkatz.knime.jsondocgen.application/src/de/philippkatz/knime/jsondocgen/AbstractDoc.java:43-46 | overwrites `afterId` (last write wins), leaves every other field alone and returns the builder itself |
| LegacyDocs.NodeDocBuilder.SetIntro | de.philippkatz.knime.jsondocgen.application/src/de/philippkatz/knime/jsondocgen/NodeDoc.java:23-26 | overwrites `intro` (last write wins), leaves every other field alone and returns the builder itself |
| LegacyDocs.NodeDocBuilder.SetOptionTabs | de.philippkatz.knime.jsondocgen.application/src/de/philippkatz/knime/jsondocgen/NodeDoc.java:27-30 | overwrites `optionTabs` (last write wins), leaves every other field alone and returns the builder itself |
| LegacyDocs.NodeDocBuilder.SetOptions | de.philippkatz.knime.jsondocgen.application/src/de/philippkatz/knime/jsondocgen/NodeDoc.java:31-34 | overwrites `options` (last write wins), leaves every other field alone and returns the builder itself |
| LegacyDocs.NodeDocBuilder.SetInPorts | de.philippkatz.knime.jsondocgen.application/src/de/philippkatz/knime/jsondocgen/NodeDoc.java:35-38 | overwrites `inPorts` (last write wins), leaves every other field alone and returns the builder itself |
| LegacyDocs.NodeDocBuilder.SetOutPorts | de.philippkatz.knime.jsondocgen.application/src/de/philippkatz/knime/jsondocgen/NodeDoc.java:39-42 | overwrites `outPorts` (last write wins), leaves every other field alone and returns the builder itself |
| LegacyDocs.NodeDocBuilder.SetViews | de.philippkatz.knime.jsondocgen.application/src/de/philippkatz/knime/jsondocgen/NodeDoc.java:43-46 | overwrites `views` (last write wins), leaves every other field alone and returns the builder itself |
| LegacyDocs.NodeDocBuilder.SetType | de.philippkatz.knime.jsondocgen.application/src/de/philippkatz/knime/jsondocgen/NodeDoc.java:47-50 | overwrites `type` (last write wins), leaves every other field alone and returns the builder itself |
| LegacyDocs.NodeDocBuilder.SetDeprecated | de.philippkatz.knime.jsondocgen.application/src/de/philippkatz/knime/jsondocgen/NodeDoc.java:51-54 | overwrites `deprecated` (last write wins), leaves every other field alone and returns the builder itself |
| LegacyDocs.NodeDocBuilder.SetInteractiveView | de.philippkatz.knime.jsondocgen.application/src/de/philippkatz/knime/jsondocgen/NodeDoc.java:55-58 | overwrites `interactiveView` (last write wins), leaves every other field alone and returns the builder itself |
| LegacyDocs.NodeDocBuilder.SetStreamable | de.philippkatz.knime.jsondocgen.application/src/de/philippkatz/knime/jsondocgen/NodeDoc.java:73-76 | overwrites `streamable` (last write wins), leaves every other field alone and returns the builder itself |
| LegacyDocs.NodeDocBuilder.AddOptionTab | de.philippkatz.knime.jsondocgen.application/src/de/philippkatz/knime/jsondocgen/NodeDoc.java:59-65 | creates the tab list on first use and otherwise keeps the same list, appends the tab at the end, and changes no other field |
| LegacyDocs.NodeDocBuilder.AddView | de.philippkatz.knime.jsondocgen.application/src/de/philippkatz/knime/jsondocgen/NodeDoc.java:66-72 | creates the view list on first use and otherwise keeps the same list, appends the view at the end, and changes no other field |
| LegacyDocs.NodeDocBuilder.Build | de.philippkatz.knime.jsondocgen.application/src/de/philippkatz/knime/jsondocgen/NodeDoc.java:143-155 | the built document mirrors `id` into `identifier` and `description` into `shortDescription`, copies each list (null stays null), and carries intro, type, deprecated, interactive view and streamable over unchanged |
| LegacyDocs.OptionAddedAfterBuild | de.philippkatz.knime.jsondocgen.application/src/de/philippkatz/knime/jsondocgen/NodeDoc.java:85-88 | a tab keeps the options list it is given rather than a copy, so an option added to that list after `build` shows up in the built document |
| NodeDocs.MakeAbstractDoc | de.philippkatz.knime.jsondocgen.application/src/de/philippkatz/knime/jsondocgen/docs/AbstractDoc.java:61-70 | a built document's `identifier` always equals `id` and its `shortDescription` always equals `description`; name, plugin, icon and afterId are the builder's values |
| NodeDocs.MakeOptionTab | de.philippkatz.knime.jsondocgen.application/src/de/philippkatz/knime/jsondocgen/docs/NodeDoc.java:86-89 | an option tab keeps its name and a copy of its options list, null exactly when the list is null |
| NodeDocs.Convert | de.philippkatz.knime.jsondocgen.application/src/de/philippkatz/knime/jsondocgen/docs/NodeDoc.java:168-174 | `convert` is null exactly for a null port list, and otherwise lists each port's class, same length and order |
| NodeDocs.NodeDocBuilder.constructor | de.philippkatz.knime.jsondocgen.application/src/de/philippkatz/knime/jsondocgen/docs/NodeDoc.java:13-23 | a new builder has every reference null and every flag false |
| NodeDocs.NodeDocBuilder.SetId | de.philippkatz.knime.jsondocgen.application/src/de/philippkatz/knime/jsondocgen/docs/AbstractDoc.java:17-20 | overwrites `id` (last write wins), leaves every other field alone and returns the builder itself |
| NodeDocs.NodeDocBuilder.SetName | de.philippkatz.knime.jsondocgen.application/src/de/philippkatz/knime/jsondocgen/docs/AbstractDoc.java:22-25 | overwrites `name` (last write wins), leaves every other field alone and returns the builder itself |
| NodeDocs.NodeDocBuilder.SetDescription | de.philippkatz.knime.jsondocgen.application/src/de/philippkatz/knime/jsondocgen/docs/AbstractDoc.java:27-30 | overwrites `description` (last write wins), leaves every other field alone and returns the builder itself |
| NodeDocs.NodeDocBuilder.SetContributingPlugin | de.philippkatz.knime.jsondocgen.application/src/de/philippkatz/knime/jsondocgen/docs/AbstractDoc.java:32-35 | overwrites `contributingPlugin` (last write wins), leaves every other field alone and returns the builder itself |
| NodeDocs.NodeDocBuilder.SetIconBase64 | de.philippkatz.knime.jsondocgen.application/src/de/philippkatz/knime/jsondocgen/docs/AbstractDoc.java:37-40 | overwrites `iconBase64` (last write wins), leaves every other field alone and returns the builder itself |
| NodeDocs.NodeDocBuilder.SetAfterId | de.philippkatz.knime.jsondocgen.application/src/de/philippkatz/knime/jsondocgen/docs/AbstractDoc.java:42-45 | overwrites `afterId` (last write wins), leaves every other field alone and returns the builder itself |
| NodeDocs.NodeDocBuilder.SetIntro | de.philippkatz.knime.jsondocgen.application/src/de/philippkatz/knime/jsondocgen/docs/NodeDoc.java:24-27 | overwrites `intro` (last write wins), leaves every other field alone and returns the builder itself |
| NodeDocs.NodeDocBuilder.SetOptionTabs | de.philippkatz.knime.jsondocgen.application/src/de/philippkatz/knime/jsondocgen/docs/NodeDoc.java:28-31 | overwrites `optionTabs` (last write wins), leaves every other field alone and returns the builder itself |
| NodeDocs.NodeDocBuilder.SetOptions | de.philippkatz.knime.jsondocgen.application/src/de/philippkatz/knime/jsondocgen/docs/NodeDoc.java:32-35 | overwrites `options` (last write wins), leaves every other field alone and returns the builder itself |
| NodeDocs.NodeDocBuilder.SetInPorts | de.philippkatz.knime.jsondocgen.application/src/de/philippkatz/knime/jsondocgen/docs/NodeDoc.java:36-39 | overwrites `inPorts` (last write wins), leaves every other field alone and returns the builder itself |
| NodeDocs.NodeDocBuilder.SetOutPorts | de.philippkatz.knime.jsondocgen.application/src/de/philippkatz/knime/jsondocgen/docs/NodeDoc.java:40-43 | overwrites `outPorts` (last write wins), leaves every other field alone and returns the builder itself |
| NodeDocs.NodeDocBuilder.SetViews | de.philippkatz.knime.jsondocgen.application/src/de/philippkatz/knime/jsondocgen/docs/NodeDoc.java:44-47 | overwrites `views` (last write wins), leaves every other field alone and returns the builder itself |
| NodeDocs.NodeDocBuilder.SetType | de.philippkatz.knime.jsondocgen.application/src/de/philippkatz/knime/jsondocgen/docs/NodeDoc.java:48-51 | overwrites `type` (last write wins), leaves every other field alone and returns the builder itself |
| NodeDocs.NodeDocBuilder.SetDeprecated | de.philippkatz.knime.jsondocgen.application/src/de/philippkatz/knime/jsondocgen/docs/NodeDoc.java:52-55 | overwrites `deprecated` (last write wins), leaves every other field alone and returns the builder itself |
| NodeDocs.NodeDocBuilder.SetInteractiveView | de.philippkatz.knime.jsondocgen.application/src/de/philippkatz/knime/jsondocgen/docs/NodeDoc.java:56-59 | overwrites `interactiveView` (last write wins), leaves every other field alone and returns the builder itself |
| NodeDocs.NodeDocBuilder.SetStreamable | de.philippkatz.knime.jsondocgen.application/src/de/philippkatz/knime/jsondocgen/docs/NodeDoc.java:74-77 | overwrites `streamable` (last write wins), leaves every other field alone and returns the builder itself |
| NodeDocs.NodeDocBuilder.AddOptionTab | de.philippkatz.knime.jsondocgen.application/src/de/philippkatz/knime/jsondocgen/docs/NodeDoc.java:60-66 | creates the tab list on first use and otherwise keeps the same list, appends the tab at the end, and changes no other field |
| NodeDocs.NodeDocBuilder.AddView | de.philippkatz.knime.jsondocgen.application/src/de/philippkatz/knime/jsondocgen/docs/NodeDoc.java:67-73 | creates the view list on first use and otherwise keeps the same list, appends the view at the end, and changes no other field |
| NodeDocs.NodeDocBuilder.Build | de.philippkatz.knime.jsondocgen.application/src/de/philippkatz/knime/jsondocgen/docs/NodeDoc.java:152-166 | the built document mirrors `id` and `description`, copies every list (null stays null), lists the in- and out-port classes in port order (null for a null port list), and carries intro, type, deprecated, interactive view and streamable over unchanged |
| NodeDocs.BuildThenAddOptionTab | de.philippkatz.knime.jsondocgen.application/src/de/philippkatz/knime/jsondocgen/docs/NodeDoc.java:155 | a document built before a tab is added does not see it, while the builder's own list grows by exactly that tab |
| CategoryDocs.CategoryDocBuilder.constructor | de.philippkatz.knime.jsondocgen.application/src/de/philippkatz/knime/jsondocgen/CategoryDoc.java:14-21 | a new builder has every field null |
| CategoryDocs.CategoryDocBuilder.SetIdentifier | de.philippkatz.knime.jsondocgen.application/src/de/philippkatz/knime/jsondocgen/CategoryDoc.java:23-26 | overwrites the identifier, leaves every other field alone and returns the builder itself |
| CategoryDocs.CategoryDocBuilder.SetName | de.philippkatz.knime.jsondocgen.application/src/de/philippkatz/knime/jsondocgen/CategoryDoc.java:28-31 | overwrites the name, leaves every other field alone and returns the builder itself |
| CategoryDocs.CategoryDocBuilder.SetDescription | de.philippkatz.knime.jsondocgen.application/src/de/philippkatz/knime/jsondocgen/CategoryDoc.java:33-36 | overwrites the description, leaves every other field alone and returns the builder itself |
| CategoryDocs.CategoryDocBuilder.SetContributingPlugin | de.philippkatz.knime.jsondocgen.application/src/de/philippkatz/knime/jsondocgen/CategoryDoc.java:38-41 | overwrites the plugin, leaves every other field alone and returns the builder itself |
| CategoryDocs.CategoryDocBuilder.SetIconBase64 | de.philippkatz.knime.jsondocgen.application/src/de/philippkatz/knime/jsondocgen/CategoryDoc.java:43-46 | overwrites the icon, leaves every other field alone and returns the builder itself |
| CategoryDocs.CategoryDocBuilder.AddChild | de.philippkatz.knime.jsondocgen.application/src/de/philippkatz/knime/jsondocgen/CategoryDoc.java:48-54 | creates the child list on first use and otherwise keeps the same list, appends in call order, and leaves the node list and every other field untouched |
| CategoryDocs.CategoryDocBuilder.AddNode | de.philippkatz.knime.jsondocgen.application/src/de/philippkatz/knime/jsondocgen/CategoryDoc.java:56-62 | creates the node list on first use and otherwise keeps the same list, appends in call order, and leaves the child list and every other field untouched |
| CategoryDocs.CategoryDocBuilder.Build | de.philippkatz.knime.jsondocgen.application/src/de/philippkatz/knime/jsondocgen/CategoryDoc.java:78-86 | the identifier becomes `id`, name, description, plugin and icon are copied, and each list is copied or null exactly when nothing was added |
| CategoryDocs.LinkedAdd | de.philippkatz.knime.jsondocgen.application/src/de/philippkatz/knime/jsondocgen/CategoryDoc.java:100 | adding to an insertion-ordered set keeps the earlier elements in order, adds the new one and never creates a duplicate |
| CategoryDocs.LinkedAddAll | de.philippkatz.knime.jsondocgen.application/src/de/philippkatz/knime/jsondocgen/CategoryDoc.java:102 | `addAll` keeps the earlier elements in order, adds exactly the new ones and never creates a duplicate |
| CategoryDocs.AllContributingPlugins | de.philippkatz.knime.jsondocgen.application/src/de/philippkatz/knime/jsondocgen/CategoryDoc.java:98-108 | the plugin set starts with the category's own plugin, has no duplicates, and holds exactly the plugins of the category, of every child category at any depth and of every node |
| CategoryDocs.NodePlugins | de.philippkatz.knime.jsondocgen.application/src/de/philippkatz/knime/jsondocgen/CategoryDoc.java:104-106 | adding the nodes' plugins keeps what was there and adds exactly the nodes' plugins, without duplicates |
| SeleniumCategoryDocs.CategoryDoc.constructor | de.philippkatz.knime.jsondocgenerator/src/com/seleniumnodes/util/jsondocgenerator/CategoryDoc.java:17-20 | a new category takes the repository object's ID and name, and both lists start null |
| SeleniumCategoryDocs.CategoryDoc.AddChild | de.philippkatz.knime.jsondocgenerator/src/com/seleniumnodes/util/jsondocgenerator/CategoryDoc.java:22-27 | creates the child list on first use and otherwise keeps the same list, appends at the end, and leaves the nodes alone |
| SeleniumCategoryDocs.CategoryDoc.AddNode | de.philippkatz.knime.jsondocgenerator/src/com/seleniumnodes/util/jsondocgenerator/CategoryDoc.java:29-34 | creates the node list on first use and otherwise keeps the same list, appends at the end, and leaves the children alone |
| CategoryDocs.ChildrenPlugins | de.philippkatz.knime.jsondocgen.application/src/de/philippkatz/knime/jsondocgen/CategoryDoc.java:101-103 | adding the child categories' plugin sets keeps what was there and adds exactly the plugins contributing to those children, without duplicates |
| PortMerge.DocCount | application/src/de/philippkatz/knime/jsondocgen/JsonNodeDocuGenerator.java:561 | the documented port count is 0 for a null list and the list's length otherwise |
| PortMerge.MergedPort | application/src/de/philippkatz/knime/jsondocgen/JsonNodeDocuGenerator.java:568-577 | merged port `i` has index `i`, the run-time class and optionality, and the name and description of documented port `i` when there is one, null otherwise |
| PortMerge.MergedPorts | application/src/de/philippkatz/knime/jsondocgen/JsonNodeDocuGenerator.java:567-578 | one merged port per run-time port, in run-time order |
| PortMerge.MergePortInfo | application/src/de/philippkatz/knime/jsondocgen/JsonNodeDocuGenerator.java:559-580 | `mergePortInfo` returns exactly the merged ports; it warns exactly when documented and run-time counts differ, and the warning does not change the result |
| PortMerge.MergePortsIdempotent | application/src/de/philippkatz/knime/jsondocgen/JsonNodeDocuGenerator.java:559-580 | merging a merged port list again with the same run-time ports changes nothing |
| PortMerge.MergedPortClasses | de.philippkatz.knime.jsondocgen.application/src/de/philippkatz/knime/jsondocgen/docs/NodeDoc.java:159-160 | the port classes a built document lists for a merged port list are the run-time classes, in order |
| PortMerge.GetPorts | application/src/de/philippkatz/knime/jsondocgen/JsonNodeDocuGenerator.java:591-602 | `getPorts` drops the implicit flow-variable port: result port `i` is node port `i + 1`, one fewer in all |
| PortMerge.FirstWithIdentifier | application/src/de/philippkatz/knime/jsondocgen/JsonNodeDocuGenerator.java:645-646 | `findFirst` picks the first documented group with the run-time group's identifier, and finds none exactly when no group has it |
| PortMerge.MergedGroup | application/src/de/philippkatz/knime/jsondocgen/JsonNodeDocuGenerator.java:647-655 | a merged group always keeps the run-time identifier and classes |
| PortMerge.MergedGroups | application/src/de/philippkatz/knime/jsondocgen/JsonNodeDocuGenerator.java:643-656 | one merged group per run-time group, in run-time order |
| PortMerge.MergeDynamicPortInfo | application/src/de/philippkatz/knime/jsondocgen/JsonNodeDocuGenerator.java:636-658 | `mergeDynamicPortInfo` returns exactly the merged groups; it warns about the counts exactly when they differ, and returns as per-group warnings exactly `Undocumented`, the run-time identifiers no documented group has; the warnings do not change the result |
| PortMerge.MergedGroupsContents | application/src/de/philippkatz/knime/jsondocgen/JsonNodeDocuGenerator.java:643-656 | a merged group takes position, name and description from the first documented group with its identifier, and is the run-time group unchanged when there is none; documented-only groups are dropped |
| PortMerge.MergeGroupsIdempotent | application/src/de/philippkatz/knime/jsondocgen/JsonNodeDocuGenerator.java:636-658 | merging the merged groups again with the same documentation changes nothing |
| PortMerge.UndocumentedExact | application/src/de/philippkatz/knime/jsondocgen/JsonNodeDocuGenerator.java:643-655 | a group identifier is warned about exactly when some run-time group has it and no documented group does |
| PortTypeDocs.AddToLinkedSet | de.philippkatz.knime.jsondocgen.application/src/de/philippkatz/knime/jsondocgen/docs/PortTypeDoc.java:55 | adding to the child set leaves it alone when an equal builder is present and appends otherwise |
| PortTypeDocs.WithChild | de.philippkatz.knime.jsondocgen.application/src/de/philippkatz/knime/jsondocgen/docs/PortTypeDoc.java:51-57 | after `addChild` the child set exists, contains the child, keeps the earlier children in order and nothing else changes |
| PortTypeDocs.WithChildEffect | de.philippkatz.knime.jsondocgen.application/src/de/philippkatz/knime/jsondocgen/docs/PortTypeDoc.java:44-57 | `addChild` adds exactly the child's class to the set of children, keeps the set free of equal builders and touches no other field |
| PortTypeDocs.PortTypeDocBuilder.constructor | de.philippkatz.knime.jsondocgen.application/src/de/philippkatz/knime/jsondocgen/docs/PortTypeDoc.java:20-22 | `builderForObjectClass` fixes the object class and leaves every other field unset |
| PortTypeDocs.PortTypeDocBuilder.SetName | de.philippkatz.knime.jsondocgen.application/src/de/philippkatz/knime/jsondocgen/docs/PortTypeDoc.java:24-27 | overwrites the name, changes nothing else and returns the builder itself |
| PortTypeDocs.PortTypeDocBuilder.SetSpecClass | de.philippkatz.knime.jsondocgen.application/src/de/philippkatz/knime/jsondocgen/docs/PortTypeDoc.java:29-32 | overwrites the spec class, changes nothing else and returns the builder itself |
| PortTypeDocs.PortTypeDocBuilder.SetColor | de.philippkatz.knime.jsondocgen.application/src/de/philippkatz/knime/jsondocgen/docs/PortTypeDoc.java:34-37 | overwrites the colour, changes nothing else and returns the builder itself |
| PortTypeDocs.PortTypeDocBuilder.SetHidden | de.philippkatz.knime.jsondocgen.application/src/de/philippkatz/knime/jsondocgen/docs/PortTypeDoc.java:39-42 | overwrites the hidden flag, changes nothing else and returns the builder itself |
| PortTypeDocs.PortTypeDocBuilder.SetRegistered | de.philippkatz.knime.jsondocgen.application/src/de/philippkatz/knime/jsondocgen/docs/PortTypeDoc.java:59-62 | overwrites the registered flag, changes nothing else and returns the builder itself |
| PortTypeDocs.PortTypeDocBuilder.SetContributingPlugin | de.philippkatz.knime.jsondocgen.application/src/de/philippkatz/knime/jsondocgen/docs/PortTypeDoc.java:64-67 | overwrites the plugin, changes nothing else and returns the builder itself |
| PortTypeDocs.PortTypeDocBuilder.Equals | de.philippkatz.knime.jsondocgen.application/src/de/philippkatz/knime/jsondocgen/docs/PortTypeDoc.java:81-91 | two builders are equal exactly when their object classes are, whatever their name, colour or flags |
| PortTypeDocs.PortTypeDocBuilder.AddChild | de.philippkatz.knime.jsondocgen.application/src/de/philippkatz/knime/jsondocgen/docs/PortTypeDoc.java:51-57 | creates the child set on first use and adds the child unless an equal builder is already there, keeping the set valid |
| PortTypeDocs.Build | de.philippkatz.knime.jsondocgen.application/src/de/philippkatz/knime/jsondocgen/docs/PortTypeDoc.java:116-125 | `build` copies name, object class, spec class, colour, hidden, registered and plugin, and has children exactly when the builder has a child set |
| PortTypeDocs.BuildAll | de.philippkatz.knime.jsondocgen.application/src/de/philippkatz/knime/jsondocgen/docs/PortTypeDoc.java:131 | the built children are built from the builder's children, and there are no more of them |
| PortTypeDocs.BuiltChildrenMatchBuilder | de.philippkatz.knime.jsondocgen.application/src/de/philippkatz/knime/jsondocgen/docs/PortTypeDoc.java:127-132 | a builder with children builds one doc per child: the built set holds each child's built doc and is exactly as large as the child set |
| PortTypeDocs.BuildAllExact | de.philippkatz.knime.jsondocgen.application/src/de/philippkatz/knime/jsondocgen/docs/PortTypeDoc.java:131 | collecting the built children into a set loses none of them, because children with different classes build different docs |
| PortTypeDocs.BuildChildren | de.philippkatz.knime.jsondocgen.application/src/de/philippkatz/knime/jsondocgen/docs/PortTypeDoc.java:127-132 | `buildChildren` gives null exactly when the builder has no child set |
| PortHierarchy.PortInterfaces | application/src/de/philippkatz/knime/jsondocgen/JsonNodeDocuGenerator.java:399-404 | the kept interfaces are exactly the declared interfaces that are known `PortObject` classes |
| PortHierarchy.ParentsOf | application/src/de/philippkatz/knime/jsondocgen/JsonNodeDocuGenerator.java:392-406 | every parent is a loaded class placed strictly above the child, which is why the walk up the hierarchy ends |
| PortHierarchy.ParentsOfMembers | application/src/de/philippkatz/knime/jsondocgen/JsonNodeDocuGenerator.java:392-406 | a class is a parent iff it is the `PortObject` superclass other than `Object` or a `PortObject` interface; the superclass comes first |
| PortHierarchy.GetParentPortObjectClasses | application/src/de/philippkatz/knime/jsondocgen/JsonNodeDocuGenerator.java:392-406 | the superclass check and the interface loop return exactly `ParentsOf` |
| PortHierarchy.InitialState | application/src/de/philippkatz/knime/jsondocgen/JsonNodeDocuGenerator.java:357-374 | a new builder is registered iff its class is in the registry, then takes the registry's name and hidden flag; otherwise it is a hidden placeholder with no name, spec class or colour |
| PortHierarchy.LinkUnder | application/src/de/philippkatz/knime/jsondocgen/JsonNodeDocuGenerator.java:378-380 | linking under the parents creates no builder and removes none |
| PortHierarchy.ProcessPortSpec | application/src/de/philippkatz/knime/jsondocgen/JsonNodeDocuGenerator.java:349-380 | after one class the map holds the earlier builders plus one for each class of its ancestry |
| PortHierarchy.ProcessPortsSpec | application/src/de/philippkatz/knime/jsondocgen/JsonNodeDocuGenerator.java:343-382 | after a collection the map holds the earlier builders plus one for each class of the collection's ancestry |
| PortHierarchy.LinkUnderAt | application/src/de/philippkatz/knime/jsondocgen/JsonNodeDocuGenerator.java:378-380 | linking keeps every builder's fields and adds the class to the child set of exactly the listed parents |
| PortHierarchy.ProcessPortMetaAt | application/src/de/philippkatz/knime/jsondocgen/JsonNodeDocuGenerator.java:351-376 | a builder already in the map keeps its fields; a new one gets its initial fields |
| PortHierarchy.ProcessPortsMetaAt | application/src/de/philippkatz/knime/jsondocgen/JsonNodeDocuGenerator.java:347-376 | the same over a collection: only the first visit of a class creates its builder |
| PortHierarchy.ProcessPortChildrenAt | application/src/de/philippkatz/knime/jsondocgen/JsonNodeDocuGenerator.java:353-380 | one class adds every class of its ancestry as a child of each of its direct parents, and nothing else |
| PortHierarchy.ProcessPortsChildrenAt | application/src/de/philippkatz/knime/jsondocgen/JsonNodeDocuGenerator.java:343-382 | a collection adds every class of its ancestry as a child of each of its direct parents, and nothing else |
| PortHierarchy.ProcessPortsChildrenOf | application/src/de/philippkatz/knime/jsondocgen/JsonNodeDocuGenerator.java:343-382 | the same, stated for any class, including one that has no builder yet |
| PortHierarchy.ProcessPortsKeepsSound | application/src/de/philippkatz/knime/jsondocgen/JsonNodeDocuGenerator.java:343-382 | `processPorts` keeps the map sound: each builder sits under its own class and has only direct subclasses as children, with no duplicates |
| PortHierarchy.ProcessPortsFromEmpty | application/src/de/philippkatz/knime/jsondocgen/JsonNodeDocuGenerator.java:284-301 | from an empty map, the builders are exactly the classes of the ancestry, each with its initial fields, and each with exactly the processed direct subclasses as children |
| PortHierarchy.FromEmptyAt | application/src/de/philippkatz/knime/jsondocgen/JsonNodeDocuGenerator.java:284-301 | from an empty map, one builder has its initial fields and exactly the processed direct subclasses as children |
| PortHierarchy.ReprocessingAddsNothing | application/src/de/philippkatz/knime/jsondocgen/JsonNodeDocuGenerator.java:351-380 | processing the same classes again creates no builder, changes no field and adds no edge |
| PortHierarchy.SoundIsWellFormed | application/src/de/philippkatz/knime/jsondocgen/JsonNodeDocuGenerator.java:304 | a sound map satisfies what `build` needs, so building the root cannot loop |
| PortHierarchy.PortDocumentation | application/src/de/philippkatz/knime/jsondocgen/JsonNodeDocuGenerator.java:284-304 | the root document exists iff `PortObject` is among the ancestors of the registered classes; it is registered iff `PortObject` is in the registry, and otherwise it is hidden and unnamed |
| PortHierarchy.PortTypeIndex.constructor | application/src/de/philippkatz/knime/jsondocgen/JsonNodeDocuGenerator.java:284 | the builders map starts empty |
| PortHierarchy.PortTypeIndex.DocumentPortTypes | application/src/de/philippkatz/knime/jsondocgen/JsonNodeDocuGenerator.java:284-304 | the port step of `generate()` produces exactly `PortDocumentation` |
| PortHierarchy.PortTypeIndex.ProcessPorts | application/src/de/philippkatz/knime/jsondocgen/JsonNodeDocuGenerator.java:343-382 | the method's loop leaves the map equal to `ProcessPortsSpec` over the old map |
| PortHierarchy.PortTypeIndex.ProcessPort | application/src/de/philippkatz/knime/jsondocgen/JsonNodeDocuGenerator.java:349-380 | one iteration leaves the map equal to `ProcessPortSpec` over the old map |
| PortHierarchy.PortTypeIndex.LinkUnderParents | application/src/de/philippkatz/knime/jsondocgen/JsonNodeDocuGenerator.java:378-380 | the `addChild` loop leaves the map equal to `LinkUnder` over the old map |
| PortHierarchy.PortTypeIndex.NewBuilder | application/src/de/philippkatz/knime/jsondocgen/JsonNodeDocuGenerator.java:357-374 | the new builder is valid, and its fields are `InitialState`, whether from the registry or a hidden placeholder |
| PortHierarchy.AncestorsOf | application/src/de/philippkatz/knime/jsondocgen/JsonNodeDocuGenerator.java:343-382 | the ancestry walked from a class contains the class and only loaded classes at or above it |
| PortHierarchy.AncestorsOfAll | application/src/de/philippkatz/knime/jsondocgen/JsonNodeDocuGenerator.java:343-347 | the ancestry of a collection contains every class of it and only loaded classes above the bound |
| PortHierarchy.AncestorsOfClosed | application/src/de/philippkatz/knime/jsondocgen/JsonNodeDocuGenerator.java:376 | the ancestry of a class is closed under taking direct parents |
| PortHierarchy.AncestorsOfAllClosed | application/src/de/philippkatz/knime/jsondocgen/JsonNodeDocuGenerator.java:376 | the ancestry of a collection is closed under taking direct parents |
| PortHierarchy.ChildrenWithinSplit | application/src/de/philippkatz/knime/jsondocgen/JsonNodeDocuGenerator.java:378-380 | adding one class to a set adds it to the children of `k` exactly when `k` is its parent |
| PortHierarchy.ChildrenWithinUnion | application/src/de/philippkatz/knime/jsondocgen/JsonNodeDocuGenerator.java:378-380 | the children of `k` within a union are those within each part |
| PortHierarchy.ChildrenWithinAncestors | application/src/de/philippkatz/knime/jsondocgen/JsonNodeDocuGenerator.java:376-380 | the subclasses of `k` in the ancestry of a class are those above it, and the class itself when `k` is its parent |
| PortHierarchy.ChildrenBeforeLink | application/src/de/philippkatz/knime/jsondocgen/JsonNodeDocuGenerator.java:349-377 | before a class is linked, each builder holds its former children plus its subclasses in the parents' ancestry |
| PortHierarchy.ChildrenAfterLink | application/src/de/philippkatz/knime/jsondocgen/JsonNodeDocuGenerator.java:378-380 | linking adds the class to the children of `k` exactly when `k` is one of its parents |
| PortHierarchy.PortInterfacesStep | application/src/de/philippkatz/knime/jsondocgen/JsonNodeDocuGenerator.java:399-404 | one more declared interface is kept exactly when it is a known `PortObject` class |
| PortHierarchy.ProcessPortsSpecStep | application/src/de/philippkatz/knime/jsondocgen/JsonNodeDocuGenerator.java:345-347 | the walk over one more class is the walk of the earlier ones, then that class's walk |
| RepositoryTree.Enter | application/src/de/philippkatz/knime/jsondocgen/JsonNodeDocuGenerator.java:509 | a child's chain of containers is its container followed by the container's own chain |
| RepositoryTree.StringOrNull | de.philippkatz.knime.jsondocgen.application/src/de/philippkatz/knime/jsondocgen/JsonNodeDocuGenerator.java:320-322 | the result is null exactly for null or the empty string, and otherwise the string itself |
| RepositoryTree.StringOrNullIdempotent | de.philippkatz.knime.jsondocgen.application/src/de/philippkatz/knime/jsondocgen/JsonNodeDocuGenerator.java:320-322 | normalising an already normalised value changes nothing |
| RepositoryTree.OutwardIds | application/src/de/philippkatz/knime/jsondocgen/JsonNodeDocuGenerator.java:703-711 | the IDs of the chain in reverse, outermost first |
| RepositoryTree.LeadingNonRoots | application/src/de/philippkatz/knime/jsondocgen/JsonNodeDocuGenerator.java:706 | the walk up stops at the first root or when the chain ends, and passes no root on the way |
| RepositoryTree.GetCategoryIdentifier | application/src/de/philippkatz/knime/jsondocgen/JsonNodeDocuGenerator.java:703-711 | the loop that prepends parent IDs returns the dotted IDs of the container and its enclosing containers below the root, outermost first |
| RepositoryTree.NormalizeCatPath | application/src/de/philippkatz/knime/jsondocgen/JsonNodeDocuGenerator.java:262-266 | the normalised path has no '/' left and is one character shorter exactly when it started with '/' |
| RepositoryTree.NormalizeSlashPath | application/src/de/philippkatz/knime/jsondocgen/JsonNodeDocuGenerator.java:262-266 | a category path written as '/a/b/c' normalises to the identifier 'a.b.c' |
| RepositoryTree.SlashesBecomeDots | application/src/de/philippkatz/knime/jsondocgen/JsonNodeDocuGenerator.java:266 | replacing every '/' by '.' turns a slash-joined path into the dot-joined identifier |
| RepositoryTree.DotJoinPrefix | application/src/de/philippkatz/knime/jsondocgen/JsonNodeDocuGenerator.java:703-711 | the identifier of an outer category is a prefix of that of every category inside it |
| RepositoryTree.CategoryFilterKeepsSubtree | application/src/de/philippkatz/knime/jsondocgen/JsonNodeDocuGenerator.java:429-436 | a node passes the category filter when the filter is the slash path of any of its enclosing categories |
| RepositoryTree.Leaf | application/src/de/philippkatz/knime/jsondocgen/JsonNodeDocuGenerator.java:427-487 | a node is kept iff it passes the plugin and category filters; a kept node is listed iff it is not deprecated or deprecated nodes are wanted; its entry carries its ID, the plugin that was filtered on and its normalised after-ID; in the current revision a deprecation flag from the description is never cleared |
| RepositoryTree.AddNodeTo | application/src/de/philippkatz/knime/jsondocgen/JsonNodeDocuGenerator.java:484 | `addNode` appends the entry to the node list, creating it when null, and leaves the child list alone |
| RepositoryTree.AddChildTo | application/src/de/philippkatz/knime/jsondocgen/JsonNodeDocuGenerator.java:513 | `addChild` appends the child to the child list, creating it when null, and leaves the node list alone |
| RepositoryTree.NewCategory | application/src/de/philippkatz/knime/jsondocgen/JsonNodeDocuGenerator.java:494-505 | a new category builder has no children and no nodes |
| RepositoryTree.GeneratedLeaf | application/src/de/philippkatz/knime/jsondocgen/JsonNodeDocuGenerator.java:427-487 | a skipped node reports failure and changes nothing; a kept node reports success whether or not it is listed |
| RepositoryTree.GeneratedCategory | application/src/de/philippkatz/knime/jsondocgen/JsonNodeDocuGenerator.java:488-516 | a category walks its children into a new document and attaches it to the parent exactly when a child reported success |
| RepositoryTree.AddedIndependent | application/src/de/philippkatz/knime/jsondocgen/JsonNodeDocuGenerator.java:424-522 | whether an object reports success does not depend on the document it writes into |
| RepositoryTree.ContainerAddedIffSomeChild | application/src/de/philippkatz/knime/jsondocgen/JsonNodeDocuGenerator.java:507-510 | the OR loop without short-circuit reports success iff some child does |
| RepositoryTree.CategoryAttachedIffSomeChild | application/src/de/philippkatz/knime/jsondocgen/JsonNodeDocuGenerator.java:507-516 | a category is attached, as the last child, iff one of its children reported success; the parent's nodes are untouched |
| RepositoryTree.NotAddedListsNothing | application/src/de/philippkatz/knime/jsondocgen/JsonNodeDocuGenerator.java:424-522 | an object that reports failure has no listed node below it |
| RepositoryTree.StrictAddedListsSomething | application/src/de/philippkatz/knime/jsondocgen/JsonNodeDocuGenerator.java:483-487 | with success reported only for listed nodes, an object that reports success has a listed node below it |
| RepositoryTree.EntriesPreserved | application/src/de/philippkatz/knime/jsondocgen/JsonNodeDocuGenerator.java:424-522 | the walk adds to the document tree exactly the entries of the listed nodes below the object, losing and inventing none |
| RepositoryTree.EntriesPreservedAll | application/src/de/philippkatz/knime/jsondocgen/JsonNodeDocuGenerator.java:507-510 | the child loop adds exactly the entries listed below the children |
| RepositoryTree.AddNodeEntries | application/src/de/philippkatz/knime/jsondocgen/JsonNodeDocuGenerator.java:484 | adding a node adds exactly its entry to the tree's entries |
| RepositoryTree.AddChildEntries | application/src/de/philippkatz/knime/jsondocgen/JsonNodeDocuGenerator.java:513 | attaching a category adds exactly its entries to the tree's entries |
| RepositoryTree.StrictAttachesNoEmptyCategory | application/src/de/philippkatz/knime/jsondocgen/JsonNodeDocuGenerator.java:483-516 | with success reported only for listed nodes, the walk never attaches a category without entries |
| RepositoryTree.AttachKeepsNoEmptyCategories | application/src/de/philippkatz/knime/jsondocgen/JsonNodeDocuGenerator.java:513 | attaching a non-empty category with no empty categories inside keeps the tree free of empty categories |
| RepositoryTree.EmptyCategoryAttached | de.philippkatz.knime.jsondocgen.application/src/de/philippkatz/knime/jsondocgen/JsonNodeDocuGenerator.java:275-281 | as written, with deprecated nodes excluded, a category whose only node is deprecated is still attached, empty |
| RepositoryTree.CategoryIdentifier | application/src/de/philippkatz/knime/jsondocgen/JsonNodeDocuGenerator.java:703-711 | a container directly below the root is identified by its own ID |
| RepositoryTree.Generated | application/src/de/philippkatz/knime/jsondocgen/JsonNodeDocuGenerator.java:424-522 | an object that reports failure leaves the parent document as it was |
| RepositoryTree.GeneratedAll | application/src/de/philippkatz/knime/jsondocgen/JsonNodeDocuGenerator.java:507-510 | a child loop in which no child reports success leaves the document as it was |
| RepositoryTree.AddedAllIndependent | application/src/de/philippkatz/knime/jsondocgen/JsonNodeDocuGenerator.java:507-510 | whether the child loop reports success does not depend on the document it writes into |
| RepositoryTree.NotAddedListsNothingAll | application/src/de/philippkatz/knime/jsondocgen/JsonNodeDocuGenerator.java:507-510 | a child loop that reports failure has no listed node below its children |
| RepositoryTree.StrictAddedListsSomethingAll | application/src/de/philippkatz/knime/jsondocgen/JsonNodeDocuGenerator.java:507-510 | with success reported only for listed nodes, a child loop that reports success has a listed node below its children |
| RepositoryTree.CategoryEntriesPreserved | application/src/de/philippkatz/knime/jsondocgen/JsonNodeDocuGenerator.java:488-516 | a category adds to the document tree exactly the entries of the listed nodes below it |
| RepositoryTree.StrictAttachedCategoryNotEmpty | application/src/de/philippkatz/knime/jsondocgen/JsonNodeDocuGenerator.java:488-516 | with success reported only for listed nodes, walking a category attaches no category without entries |
| RepositoryTree.StrictAttachesNoEmptyCategoryAll | application/src/de/philippkatz/knime/jsondocgen/JsonNodeDocuGenerator.java:507-510 | with success reported only for listed nodes, the child loop attaches no category without entries |
| RepositoryTree.ReplaceCharConcat | application/src/de/philippkatz/knime/jsondocgen/JsonNodeDocuGenerator.java:266 | replacing '/' by '.' works piece by piece over a concatenation |
| RepositoryTree.PrependKeepsPrefix | application/src/de/philippkatz/knime/jsondocgen/JsonNodeDocuGenerator.java:431-433 | prepending the same text to a string and its prefix keeps it a prefix |
| Generator.JsonNodeDocuGenerator.constructor | application/src/de/philippkatz/knime/jsondocgen/JsonNodeDocuGenerator.java:190-199 | the generator starts from the command-line settings as given: plugin IDs, category path, deprecated flag and revision |
| Generator.JsonNodeDocuGenerator.GenerateDocumentation | application/src/de/philippkatz/knime/jsondocgen/JsonNodeDocuGenerator.java:250-272 | `generate()` normalises the category path once, walks the root into a document carrying the root's ID, name and plugin, and returns exactly what `Generated` gives for the root |
| Generator.JsonNodeDocuGenerator.Generate | application/src/de/philippkatz/knime/jsondocgen/JsonNodeDocuGenerator.java:424-522 | the dispatch on the object's kind reports success and updates the parent document exactly as `Generated` does |
| Generator.JsonNodeDocuGenerator.GenerateCategory | application/src/de/philippkatz/knime/jsondocgen/JsonNodeDocuGenerator.java:488-516 | the category branch agrees with `Generated` and never touches the parent's nodes |
| Generator.JsonNodeDocuGenerator.CategoryBuilder | application/src/de/philippkatz/knime/jsondocgen/JsonNodeDocuGenerator.java:494-505 | the new builder is fresh and holds the category's ID, name, description, plugin and icon with no lists yet |
| Generator.JsonNodeDocuGenerator.GenerateChildren | application/src/de/philippkatz/knime/jsondocgen/JsonNodeDocuGenerator.java:507-510 | the child loop agrees with `GeneratedAll` over the children |
| Generator.JsonNodeDocuGenerator.GenerateLegacyNode | de.philippkatz.knime.jsondocgen.application/src/de/philippkatz/knime/jsondocgen/JsonNodeDocuGenerator.java:250-281 | the earlier leaf branch (plugin filter, then category filter, deprecation from the repository manager) agrees with `Generated` and never touches the parent's children |
| Generator.JsonNodeDocuGenerator.GenerateNode | application/src/de/philippkatz/knime/jsondocgen/JsonNodeDocuGenerator.java:427-487 | the current leaf branch (category filter, then plugin filter on the factory's bundle, deprecation from the template) agrees with `Generated` and never touches the parent's children |
| CategoryDeclarations.KeysLast | de.philippkatz.knime.jsondocgen.application/src/de/philippkatz/knime/jsondocgen/RepositoryManager.java:386 | the keys of a list are those of all but its last element plus the last one's |
| CategoryDeclarations.DedupKeepsOnePerKey | de.philippkatz.knime.jsondocgen.application/src/de/philippkatz/knime/jsondocgen/RepositoryManager.java:375-411 | after duplicate removal no two declarations share path and level-id, and every key of the input survives |
| CategoryDeclarations.DistinctUnchanged | de.philippkatz.knime.jsondocgen.application/src/de/philippkatz/knime/jsondocgen/RepositoryManager.java:375-411 | a list without duplicates is left as it is and nothing in it is reported |
| CategoryDeclarations.FirstWithAt | de.philippkatz.knime.jsondocgen.application/src/de/philippkatz/knime/jsondocgen/RepositoryManager.java:378-386 | a declaration whose key does not occur earlier is the first with its key in every longer prefix |
| CategoryDeclarations.KeysConcat | de.philippkatz.knime.jsondocgen.application/src/de/philippkatz/knime/jsondocgen/RepositoryManager.java:386 | the keys of a concatenation are the union of the keys |
| CategoryDeclarations.RemovalKeys | de.philippkatz.knime.jsondocgen.application/src/de/philippkatz/knime/jsondocgen/RepositoryManager.java:406 | removing a declaration whose key occurs earlier loses no key |
| CategoryDeclarations.RemovalDedup | de.philippkatz.knime.jsondocgen.application/src/de/philippkatz/knime/jsondocgen/RepositoryManager.java:406 | removing a declaration whose key occurs earlier changes no survivor |
| CategoryDeclarations.RemovalFirstWith | de.philippkatz.knime.jsondocgen.application/src/de/philippkatz/knime/jsondocgen/RepositoryManager.java:406 | removing a declaration whose key occurs earlier changes no key's first declaration |
| CategoryDeclarations.RemovalShadowed | de.philippkatz.knime.jsondocgen.application/src/de/philippkatz/knime/jsondocgen/RepositoryManager.java:394-406 | removing a later duplicate takes it out of the differently named duplicates exactly when its name differs from the survivor's |
| CategoryDeclarations.RemovalKeepsSurvivors | de.philippkatz.knime.jsondocgen.application/src/de/philippkatz/knime/jsondocgen/RepositoryManager.java:394-406 | removing a later duplicate leaves the survivors alone and is counted among the differently named duplicates exactly when its name differs |
| CategoryDeclarations.RemovalKeepsSeparation | de.philippkatz.knime.jsondocgen.application/src/de/philippkatz/knime/jsondocgen/RepositoryManager.java:379-406 | removing the duplicate at the inner position keeps the front of the list and everything the scan has separated so far |
| CategoryDeclarations.RemoveDuplicatesFromCategories | de.philippkatz.knime.jsondocgen.application/src/de/philippkatz/knime/jsondocgen/RepositoryManager.java:375-411 | for declarations on which the search dereferences no missing attribute (`NullSafe`), the list ends as the first declaration of each key, in order; the names ignored in warnings are exactly the differently named duplicates, each paired with a survivor of the same key |
| CategoryDeclarations.ScanStepKeeps | de.philippkatz.knime.jsondocgen.application/src/de/philippkatz/knime/jsondocgen/RepositoryManager.java:379-408 | one step of the inner loop keeps the scanned prefix, its separation and the survivors, and moves the boundary down by one |
| CategoryDeclarations.ScanStepAccounts | de.philippkatz.knime.jsondocgen.application/src/de/philippkatz/knime/jsondocgen/RepositoryManager.java:394-406 | one step of the inner loop reports the element it drops exactly when that element is a differently named duplicate |
| CategoryDeclarations.ScanStepReports | de.philippkatz.knime.jsondocgen.application/src/de/philippkatz/knime/jsondocgen/RepositoryManager.java:394-403 | one step of the inner loop keeps every warning sound: each pairs a kept declaration with a differently named one of the same key |
| CategoryDeclarations.SeparatedAfterStep | de.philippkatz.knime.jsondocgen.application/src/de/philippkatz/knime/jsondocgen/RepositoryManager.java:379-386 | an inner element with a different key extends the separated tail by one |
| CategoryDeclarations.ReportedExtends | de.philippkatz.knime.jsondocgen.application/src/de/philippkatz/knime/jsondocgen/RepositoryManager.java:394-403 | warnings stay sound when the prefix they point into is kept and the new ones are sound |
| CategoryDeclarations.RemoveAndReport | de.philippkatz.knime.jsondocgen.application/src/de/philippkatz/knime/jsondocgen/RepositoryManager.java:394-406 | one removal keeps the survivors and is among the differently named duplicates exactly when its name differs from the one at the outer position |
| CategoryDeclarations.IgnoredAppend | de.philippkatz.knime.jsondocgen.application/src/de/philippkatz/knime/jsondocgen/RepositoryManager.java:400 | a new warning adds exactly its ignored declaration |
| CategoryDeclarations.CountSlashes | de.philippkatz.knime.jsondocgen.application/src/de/philippkatz/knime/jsondocgen/RepositoryManager.java:201-213 | the counting loop returns the number of '/' in the path |
| CategoryDeclarations.ComparePaths | de.philippkatz.knime.jsondocgen.application/src/de/philippkatz/knime/jsondocgen/RepositoryManager.java:185-215 | the comparator's sign is the order of the path depths: a null path first, then "/", then by slash count; equal paths compare equal, and two ordinary paths compare by the difference of their slash counts |
| CategoryDeclarations.ChildPathSortsLater | de.philippkatz.knime.jsondocgen.application/src/de/philippkatz/knime/jsondocgen/RepositoryManager.java:183-215 | a declaration one level below a category (its path is the category's path, "/" included, extended by the category's level-id) sorts strictly after the category's own declaration, so parents are created first |
| CategoryDeclarations.RemoveLaterDuplicates | de.philippkatz.knime.jsondocgen.application/src/de/philippkatz/knime/jsondocgen/RepositoryManager.java:379-409 | the inner loop keeps the survivors and the front of the list, and leaves no later duplicate of the declaration at the outer position |
| CategoryDeclarations.CompareAndRemove | de.philippkatz.knime.jsondocgen.application/src/de/philippkatz/knime/jsondocgen/RepositoryManager.java:381-407 | one inner step removes the declaration exactly when path and level-id match the outer one, and warns exactly when the names also differ |
| CategoryDeclarations.DedupDrawsFromInput | de.philippkatz.knime.jsondocgen.application/src/de/philippkatz/knime/jsondocgen/RepositoryManager.java:375-411 | the survivors of duplicate removal are declarations of the input, no more than it has |
| CategoryDeclarations.DedupFirsts | de.philippkatz.knime.jsondocgen.application/src/de/philippkatz/knime/jsondocgen/RepositoryManager.java:375-411 | each survivor of duplicate removal is the first declaration of its path and level-id in the input |
| CategoryDeclarations.ShadowedAreRenamedDuplicates | de.philippkatz.knime.jsondocgen.application/src/de/philippkatz/knime/jsondocgen/RepositoryManager.java:394-400 | a declaration a warning ignores is a later declaration of a key whose first declaration has a different name |
| CategoryDeclarations.Depth | de.philippkatz.knime.jsondocgen.application/src/de/philippkatz/knime/jsondocgen/RepositoryManager.java:185-215 | only a null path and "/" sort before the ordinary paths, whose depth is their slash count |
| CategoryDeclarations.SafeComparison | de.philippkatz.knime.jsondocgen.application/src/de/philippkatz/knime/jsondocgen/RepositoryManager.java:381-390 | once the scan has reached outer position i, its comparison with any later declaration dereferences no missing attribute |
| CategoryDeclarations.RemovalKeepsDerefSafe | de.philippkatz.knime.jsondocgen.application/src/de/philippkatz/knime/jsondocgen/RepositoryManager.java:406 | removing a later duplicate keeps every remaining comparison free of missing attributes |
| CategoryDeclarations.SortedByDepthSpec | de.philippkatz.knime.jsondocgen.application/src/de/philippkatz/knime/jsondocgen/RepositoryManager.java:183-216 | the sort's result is ordered by depth, holds exactly the input's declarations, and is stable: the declarations of each depth keep their order, as `Collections.sort` promises |
| CategoryDeclarations.InsertByDepthOrdered | de.philippkatz.knime.jsondocgen.application/src/de/philippkatz/knime/jsondocgen/RepositoryManager.java:183-216 | inserting a declaration keeps a depth-ordered list ordered |
| CategoryDeclarations.InsertByDepthElements | de.philippkatz.knime.jsondocgen.application/src/de/philippkatz/knime/jsondocgen/RepositoryManager.java:183-216 | inserting a declaration adds exactly that declaration |
| CategoryDeclarations.InsertByDepthAtDepth | de.philippkatz.knime.jsondocgen.application/src/de/philippkatz/knime/jsondocgen/RepositoryManager.java:183-216 | inserting a declaration appends it to the declarations of its depth and leaves the other depths alone |
| CategoryDeclarations.InsertByDepthBound | de.philippkatz.knime.jsondocgen.application/src/de/philippkatz/knime/jsondocgen/RepositoryManager.java:183-216 | inserting a declaration keeps every depth at or below a bound that the list and the declaration both respect |
| RepositoryModel.WithChildren | de.philippkatz.knime.jsondocgen.application/src/de/philippkatz/knime/jsondocgen/RepositoryManager.java:419 | replacing a container's children keeps it a container with the same shell and exactly the given children |
| RepositoryModel.At | de.philippkatz.knime.jsondocgen.application/src/de/philippkatz/knime/jsondocgen/RepositoryManager.java:251 | a path found by `findContainer` leads to a container |
| RepositoryModel.AddChildAt | de.philippkatz.knime.jsondocgen.application/src/de/philippkatz/knime/jsondocgen/RepositoryManager.java:276 | `addChild` on a found container keeps the root a container with the same shell |
| RepositoryModel.AddKeepsContainers | de.philippkatz.knime.jsondocgen.application/src/de/philippkatz/knime/jsondocgen/RepositoryManager.java:149-152 | adding a child moves no container: every path to a container still leads to one, with the same shell |
| RepositoryModel.AddAppends | de.philippkatz.knime.jsondocgen.application/src/de/philippkatz/knime/jsondocgen/RepositoryManager.java:276 | `addChild` appends the object to the container's children |
| RepositoryModel.LeavesAllConcat | de.philippkatz.knime.jsondocgen.application/src/de/philippkatz/knime/jsondocgen/RepositoryManager.java:414 | the templates of a concatenation of objects are those of each part, in order |
| RepositoryModel.LeavesAllUpdate | de.philippkatz.knime.jsondocgen.application/src/de/philippkatz/knime/jsondocgen/RepositoryManager.java:414-420 | replacing one child replaces its templates and leaves the others where they were |
| RepositoryModel.AddChildLeaves | de.philippkatz.knime.jsondocgen.application/src/de/philippkatz/knime/jsondocgen/RepositoryManager.java:259-280 | adding a child adds exactly its templates to the tree, and no others |
| RepositoryModel.Pruned | de.philippkatz.knime.jsondocgen.application/src/de/philippkatz/knime/jsondocgen/RepositoryManager.java:413-423 | pruning keeps the container and its shell |
| RepositoryModel.RemoveEmptyCategories | de.philippkatz.knime.jsondocgen.application/src/de/philippkatz/knime/jsondocgen/RepositoryManager.java:413-423 | the recursive removal returns exactly `Pruned` of its argument |
| RepositoryModel.PrunedKeepsLeaves | de.philippkatz.knime.jsondocgen.application/src/de/philippkatz/knime/jsondocgen/RepositoryManager.java:413-423 | pruning keeps every template, in the same order |
| RepositoryModel.PrunedHasNoEmpty | de.philippkatz.knime.jsondocgen.application/src/de/philippkatz/knime/jsondocgen/RepositoryManager.java:413-423 | after pruning no container below the argument is left without children |
| RepositoryModel.PrunedFixed | de.philippkatz.knime.jsondocgen.application/src/de/philippkatz/knime/jsondocgen/RepositoryManager.java:413-423 | a tree without empty containers is left as it is |
| RepositoryModel.PrunedIdempotent | de.philippkatz.knime.jsondocgen.application/src/de/philippkatz/knime/jsondocgen/RepositoryManager.java:413-423 | pruning twice prunes nothing more |
| RepositoryModel.NoEmptyChildrenIffLeaves | de.philippkatz.knime.jsondocgen.application/src/de/philippkatz/knime/jsondocgen/RepositoryManager.java:418 | in a pruned tree a container has children iff it has templates below it |
| RepositoryModel.ContainerSurvivesIffLeaves | de.philippkatz.knime.jsondocgen.application/src/de/philippkatz/knime/jsondocgen/RepositoryManager.java:413-423 | after pruning a container has children iff some template lies below it |
| RepositoryModel.PrunedAllKeepsLeaves | de.philippkatz.knime.jsondocgen.application/src/de/philippkatz/knime/jsondocgen/RepositoryManager.java:414-421 | pruning a list of children keeps every template, in order |
| RepositoryModel.PrunedAllHasNoEmpty | de.philippkatz.knime.jsondocgen.application/src/de/philippkatz/knime/jsondocgen/RepositoryManager.java:414-421 | after pruning a list of children none of them is a container without children |
| RepositoryModel.PrunedAllFixed | de.philippkatz.knime.jsondocgen.application/src/de/philippkatz/knime/jsondocgen/RepositoryManager.java:414-421 | a list of children without empty containers is left as it is |
| RepositoryModel.NoEmptyAmongLeaves | de.philippkatz.knime.jsondocgen.application/src/de/philippkatz/knime/jsondocgen/RepositoryManager.java:418 | a list of children without empty containers is empty exactly when it holds no template |
| RepositoryModel.LeavesAllSplit | de.philippkatz.knime.jsondocgen.application/src/de/philippkatz/knime/jsondocgen/RepositoryManager.java:414-420 | the templates of a list split around one child are those before it, its own, and those after it |
| RepositoryManagement.AddKeepsResolving | de.philippkatz.knime.jsondocgen.application/src/de/philippkatz/knime/jsondocgen/RepositoryManager.java:251-280 | adding a node keeps every category `findContainer` could find findable |
| RepositoryManagement.NodeTarget | de.philippkatz.knime.jsondocgen.application/src/de/philippkatz/knime/jsondocgen/RepositoryManager.java:251-281 | a node always goes to a container: its category when that exists and admits it, otherwise "/uncategorized" or the root |
| RepositoryManagement.PlaceNodes | de.philippkatz.knime.jsondocgen.application/src/de/philippkatz/knime/jsondocgen/RepositoryManager.java:240-300 | placing nodes keeps the root and what it is, and keeps every category findable |
| RepositoryManagement.PlaceNode | de.philippkatz.knime.jsondocgen.application/src/de/philippkatz/knime/jsondocgen/RepositoryManager.java:241-282 | placing one node keeps the root and what it is, and keeps every category findable |
| RepositoryManagement.PlaceAll | de.philippkatz.knime.jsondocgen.application/src/de/philippkatz/knime/jsondocgen/RepositoryManager.java:316-333 | placing contributions keeps the root and what it is, and keeps every category findable |
| RepositoryManagement.PlaceOne | de.philippkatz.knime.jsondocgen.application/src/de/philippkatz/knime/jsondocgen/RepositoryManager.java:322-333 | placing one contribution keeps the root and what it is, and keeps every category findable |
| RepositoryManagement.PlaceAllStep | de.philippkatz.knime.jsondocgen.application/src/de/philippkatz/knime/jsondocgen/RepositoryManager.java:316 | placing one more contribution places it after the earlier ones |
| RepositoryManagement.ReadResult | de.philippkatz.knime.jsondocgen.application/src/de/philippkatz/knime/jsondocgen/RepositoryManager.java:123-130 | reading keeps the root a container and what it is |
| RepositoryManagement.Loaded | de.philippkatz.knime.jsondocgen.application/src/de/philippkatz/knime/jsondocgen/RepositoryManager.java:432-437 | the lazy read keeps the root a container and what it is |
| RepositoryManagement.ReadKeepsConsistent | de.philippkatz.knime.jsondocgen.application/src/de/philippkatz/knime/jsondocgen/RepositoryManager.java:123-130 | a read from an empty root keeps the registry consistent with the root, so every category path the lookup names still leads to a container |
| RepositoryManagement.FewDotsAdmitted | de.philippkatz.knime.jsondocgen.application/src/de/philippkatz/knime/jsondocgen/RepositoryManager.java:266-273 | a node plug-in ID with fewer than two dots gives a second-dot index of 0, so every container admits the node |
| RepositoryManagement.VendorPart | de.philippkatz.knime.jsondocgen.application/src/de/philippkatz/knime/jsondocgen/RepositoryManager.java:266 | in an ID vendor.product.rest the vendor part ends at the second dot |
| RepositoryManagement.LockedAdmitsIff | de.philippkatz.knime.jsondocgen.application/src/de/philippkatz/knime/jsondocgen/RepositoryManager.java:261-273 | a locked container admits a node iff the node comes from the container's plug-in, from a KNIME plug-in, or from a plug-in whose vendor and product match the container's |
| RepositoryManagement.DeprecatedNodeIdsIff | de.philippkatz.knime.jsondocgen.application/src/de/philippkatz/knime/jsondocgen/RepositoryManager.java:284-286 | an ID is recorded as deprecated iff some created node has it and its element declares deprecated="true" in any case |
| RepositoryManagement.PlaceNodesLeaves | de.philippkatz.knime.jsondocgen.application/src/de/philippkatz/knime/jsondocgen/RepositoryManager.java:240-300 | every node `readNodes` creates ends up in the tree exactly once, and nothing else is added |
| RepositoryManagement.PlaceNodesStep | de.philippkatz.knime.jsondocgen.application/src/de/philippkatz/knime/jsondocgen/RepositoryManager.java:240 | one more node element: its node is placed after the earlier ones, and its node and deprecated ID join theirs |
| RepositoryManagement.PlaceNodeLeaves | de.philippkatz.knime.jsondocgen.application/src/de/philippkatz/knime/jsondocgen/RepositoryManager.java:241-282 | placing one node adds exactly its templates |
| RepositoryManagement.PlaceAllLeaves | de.philippkatz.knime.jsondocgen.application/src/de/philippkatz/knime/jsondocgen/RepositoryManager.java:316-333 | placing contributions adds exactly their templates |
| RepositoryManagement.PlaceOneLeaves | de.philippkatz.knime.jsondocgen.application/src/de/philippkatz/knime/jsondocgen/RepositoryManager.java:322-333 | placing one contribution adds exactly its templates |
| RepositoryManagement.ReadKeepsEveryTemplate | de.philippkatz.knime.jsondocgen.application/src/de/philippkatz/knime/jsondocgen/RepositoryManager.java:123-130 | a read from an empty root ends with exactly the templates of the created nodes, node-set nodes and metanodes, each as often as contributed; the created categories add none and pruning removes none |
| RepositoryManagement.ReadLeavesNoEmptyCategory | de.philippkatz.knime.jsondocgen.application/src/de/philippkatz/knime/jsondocgen/RepositoryManager.java:123-130 | after a read no category below the root is left without children |
| RepositoryManagement.LoadedIdempotent | de.philippkatz.knime.jsondocgen.application/src/de/philippkatz/knime/jsondocgen/RepositoryManager.java:432-452 | asking twice is asking once: the second `getRoot` or `isDeprecated` changes neither the root nor the deprecated IDs, even when the first read left the root without children |
| RepositoryManagement.RepositoryManager.constructor | de.philippkatz.knime.jsondocgen.application/src/de/philippkatz/knime/jsondocgen/RepositoryManager.java:111-121 | the manager starts with an empty root and no deprecated IDs |
| RepositoryManagement.RepositoryManager.GetRoot | de.philippkatz.knime.jsondocgen.application/src/de/philippkatz/knime/jsondocgen/RepositoryManager.java:432-437 | `getRoot` reads only while the root has no children and returns the root; the state is `Loaded` |
| RepositoryManagement.RepositoryManager.IsDeprecated | de.philippkatz.knime.jsondocgen.application/src/de/philippkatz/knime/jsondocgen/RepositoryManager.java:447-452 | `isDeprecated` reads only while the root has no children and answers whether the ID was recorded |
| RepositoryManagement.RepositoryManager.ReadRepository | de.philippkatz.knime.jsondocgen.application/src/de/philippkatz/knime/jsondocgen/RepositoryManager.java:123-130 | categories, nodes, node sets, metanodes, then pruning: the state is `ReadResult` |
| RepositoryManagement.RepositoryManager.ReadCategories | de.philippkatz.knime.jsondocgen.application/src/de/philippkatz/knime/jsondocgen/RepositoryManager.java:171-229 | the declarations lose their later duplicates, are sorted stably by depth and are created in that order: the root becomes `Categorized` of the registry, and the deprecated IDs are untouched |
| RepositoryManagement.RepositoryManager.ReadNodes | de.philippkatz.knime.jsondocgen.application/src/de/philippkatz/knime/jsondocgen/RepositoryManager.java:232-301 | the loop places every node element as `PlaceNodes` does and records exactly `DeprecatedNodeIds` |
| RepositoryManagement.RepositoryManager.ReadNode | de.philippkatz.knime.jsondocgen.application/src/de/philippkatz/knime/jsondocgen/RepositoryManager.java:241-299 | one element: nothing when its node cannot be created, otherwise the node added where `NodeTarget` says and its ID recorded when declared deprecated |
| RepositoryManagement.RepositoryManager.ReadNodeSets | de.philippkatz.knime.jsondocgen.application/src/de/philippkatz/knime/jsondocgen/RepositoryManager.java:307-355 | every node of every node set that could be created is placed in order, and each node of a set declared deprecated is recorded |
| RepositoryManagement.RepositoryManager.ReadNodeSet | de.philippkatz.knime.jsondocgen.application/src/de/philippkatz/knime/jsondocgen/RepositoryManager.java:316-339 | the nodes of one set go to their categories or to the root; their IDs are recorded when the set is declared deprecated |
| RepositoryManagement.RepositoryManager.ReadMetanodes | de.philippkatz.knime.jsondocgen.application/src/de/philippkatz/knime/jsondocgen/RepositoryManager.java:132-169 | each metanode that could be created goes to its category or to the root; the deprecated IDs are untouched |
| RepositoryManagement.NodeSetsStep | de.philippkatz.knime.jsondocgen.application/src/de/philippkatz/knime/jsondocgen/RepositoryManager.java:311-339 | one more node set: its nodes are placed after the earlier ones and its IDs join theirs |
| RepositoryManagement.MetanodesStep | de.philippkatz.knime.jsondocgen.application/src/de/philippkatz/knime/jsondocgen/RepositoryManager.java:137-153 | one more metanode element: its metanode, when created, is placed after the earlier ones |
| RepositoryManagement.PlaceAllConcat | de.philippkatz.knime.jsondocgen.application/src/de/philippkatz/knime/jsondocgen/RepositoryManager.java:316-333 | placing a and then b is placing a + b |
| RepositoryManagement.SecondDotIndex | de.philippkatz.knime.jsondocgen.application/src/de/philippkatz/knime/jsondocgen/RepositoryManager.java:266-269 | the vendor part of a plug-in ID ends at its second '.': a positive index holds the second dot, and 0 means the ID has fewer than two dots |
| RepositoryManagement.Categorized | de.philippkatz.knime.jsondocgen.application/src/de/philippkatz/knime/jsondocgen/RepositoryManager.java:171-229 | `readCategories` keeps the root a container of the same kind |
| RepositoryManagement.CategoryOrderSpec | de.philippkatz.knime.jsondocgen.application/src/de/philippkatz/knime/jsondocgen/RepositoryManager.java:181-216 | `createCategory` is handed each path and level-id once, as first declared, ordered by depth; no key is lost |
| RepositoryManagement.CreateCategory | de.philippkatz.knime.jsondocgen.application/src/de/philippkatz/knime/jsondocgen/RepositoryManager.java:218-227 | a declaration's category joins the container its parent path finds; when it cannot be made or the parent is not there the tree is unchanged; the root stays a container of the same kind |
| RepositoryManagement.CreateCategories | de.philippkatz.knime.jsondocgen.application/src/de/philippkatz/knime/jsondocgen/RepositoryManager.java:218-228 | creating the categories in order keeps the root a container of the same kind |
| RepositoryManagement.CreateCategoriesLeaves | de.philippkatz.knime.jsondocgen.application/src/de/philippkatz/knime/jsondocgen/RepositoryManager.java:218-228 | creating new categories adds no template |
| RepositoryManagement.CreateCategoriesStep | de.philippkatz.knime.jsondocgen.application/src/de/philippkatz/knime/jsondocgen/RepositoryManager.java:218-228 | one more declaration is created after the earlier ones |
| RepositoryManagement.RepositoryManager.ReadCategoryElements | de.philippkatz.knime.jsondocgen.application/src/de/philippkatz/knime/jsondocgen/RepositoryManager.java:218-228 | the creation loop leaves the root as `CreateCategories` over the declarations in order, and the deprecated IDs as they were |

## Left out

- The Eclipse application glue: argument parsing beyond the settings the walk uses, exit codes, output directories and writing files. These are I/O.
- JSON serialisation (Gson), XML parsing and serialisation (Jerry, DOM, XPath) and `html()`'s markup text. The parsers see an element tree, and inner markup is the serialisation of a subtree.
- Reflection and the KNIME runtime. `createNodeModel`, `isStreamable`, `getBundleName`, `getDynamicPorts`, `PortTypeRegistry` and `Node` become inputs: runtime port lists, dynamic groups, the registered port types, the bundle name and a class table giving each class's superclass and interfaces.
- The Eclipse extension registry and KNIME's `RepositoryFactory`. What `createCategory`, `createNode`, `createNodeSet`, `createMetaNode` and `findContainer` produce is given as a `Registry`; an element whose creation throws is an absent value. Categories that `createNodeSet` itself adds are not modelled.
- `Collections.sort` in `readCategories` is modelled by its result, the stable order by depth (`SortedByDepth`, an insertion sort), not by the library's merge steps. Its comparator is modelled as a method, and the ordering property the sort exists for is proved (`ChildPathSortsLater`).
- The repository tree is modelled on values. `addChild` and `removeChild` change a container found by its path of child indices, so object identity and the parent back-links are not modelled.
- `synchronized` on `getRoot` and `isDeprecated` is modelled as sequential code.
- Logging. Only the decision to warn is kept. Duplicate removal returns its warnings, `mergePortInfo` and `mergeDynamicPortInfo` return whether the port counts differ, and `mergeDynamicPortInfo` also returns the identifiers of the groups the documentation lacks. The remaining log calls (unknown or locked categories, creation failures) are not modelled.
- The unused `nodeName` substring in `readNodes` and `readNodeSets`.
- SWT image encoding (`getImageBase64`). A category's icon is given already encoded, and a node's icon is not modelled.
- Node documents built by `generate` keep only the fields the walk itself decides: ID, plugin, after-ID and deprecation. Description content, name, icon, streamable flag and the merged ports are not part of that entry; the merges are modelled separately in `PortMerge`.
- A category's after-ID. Both revisions call `setAfterId` on a category builder, but the CategoryDoc.java modelled here declares no such setter, and the category document class the current revision uses is not part of this model.
- MigrationRuleExtractor, SplashIconReader, P2InformationReader, FeatureDoc, PluginDoc, SplashIconDoc, MigrationRuleDoc and the seleniumnodes NodeDoc record are not modelled. They are runtime readers or plain records.
- JavaStrings.EqualsIgnoreCase: case folding covers ASCII letters only. Unicode case folding is not modelled; the code only compares against "true".
- CategoryDeclarations.RemoveDuplicatesFromCategories: it requires `NullSafe`, which holds exactly when the duplicate search dereferences no missing attribute. The search reads the outer declaration's path for every later one still in the list, its level-id when the paths agree, and its name when the level-ids agree too. When `NullSafe` fails the source throws a NullPointerException out of `readRepository`, and that path is not modelled.
- RepositoryTree.Leaf: the leaf is always skipped or kept. A node that passes the filters has its description parsed, and a port or view index the parser cannot read throws NumberFormatException. The throw happens in the earlier revision at de.philippkatz.knime.jsondocgen.application/src/de/philippkatz/knime/jsondocgen/JsonNodeDocuGenerator.java:269 and in the current one at application/src/de/philippkatz/knime/jsondocgen/JsonNodeDocuGenerator.java:453, outside the `try` that starts at :462. Nothing inside `generate` catches it, so it ends the whole run: the earlier revision lets it out of `run` (:162), and the current one catches it only around the whole run (:224-226). That abort is not modelled.
- RepositoryTree.GeneratedLeaf: it states the leaf case without the abort described for `Leaf`.
- Generator.JsonNodeDocuGenerator.GenerateLegacyNode: a node whose description the parser cannot read aborts the run, as described for `Leaf`; the method does not model that.
- Generator.JsonNodeDocuGenerator.GenerateNode: the same abort is not modelled.
- PortMerge.MergeDynamicPortInfo: it is modelled for documented group lists that exist. A node whose description declares no dynamic port groups passes a null list, and `docPorts.size()` at application/src/de/philippkatz/knime/jsondocgen/JsonNodeDocuGenerator.java:638 throws. The `catch` at :474 swallows that, and the node's document keeps no dynamic ports. That path is not modelled.
- JavaStrings.DecimalDigit: a `char` here is a whole code point, and the table holds the decimal-digit runs of the Basic Multilingual Plane only. Java reads a supplementary-plane digit as two surrogates, neither of them a digit, so in both cases such a digit fails to parse. The table follows Java 9 and later (Unicode 7.0 and later). Java 8's `Character.digit` lacks the Sinhala Lith (U+0DE6) and Myanmar Tai Laing (U+A9F0) runs.
- Markup.Find: over several context elements it concatenates the matches of each one. So an element inside two nested matches of an outer tag is found twice: `$("a b")` on `<a><a><b/></a></a>` yields the `b` twice, where the selector library returns each element once. `FindExact` and `SelectExact` state membership exactly; multiplicity is not modelled.
- PortMerge.GetPorts: it requires at least one port, the implicit flow-variable port. With none, the source throws NegativeArraySizeException, and that is not modelled.

## Findings

| source | as written | input that shows it | evidently intended | confidence | as-written member | corrected member |
|---|---|---|---|---|---|---|
| de.philippkatz.knime.jsondocgen.application/src/de/philippkatz/knime/jsondocgen/JsonNodeDocuGenerator.java:275-281 | a node template reports success (`return true`, in both revisions) even when it is deprecated and deprecated nodes are excluded, so it adds nothing | deprecated nodes excluded, a category whose only node is deprecated: the category is still attached to its parent, with no children and no nodes | `generate` reports success only when an element was added to the documentation, as its javadoc says (`@return true, if the element was added`), so no empty category is attached. The generator methods model the code as written (`Generated` with `strict` false); the corrected rule is `Generated` with `strict` true | not executed | RepositoryTree.EmptyCategoryAttached | RepositoryTree.StrictAttachesNoEmptyCategory |
