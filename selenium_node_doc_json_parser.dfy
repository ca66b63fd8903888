/**
 * The seleniumnodes `NodeDocJsonParser`: the earlier parser, which reads a node's XML
 * description into a fresh seleniumnodes `NodeDoc`. It collapses whitespace when it trims,
 * gives option tabs a description and writes the table classes into the introduction.
 * There is no icon, type, deprecation flag or interactive view, and options carry no
 * `optional` flag. `Integer.valueOf` on an `index` attribute may throw, which aborts the
 * whole parse.
 */
module SeleniumNodeDocJsonParser {
  import opened Wrappers
  import opened JavaStrings
  import opened Markup
  import NodeDocJsonParser

  /** `trim`: `replaceAll("\\s+", " ").trim()` of a non-null string; null stays null. */
  function CollapseAndTrim(s: Option<string>): (r: Option<string>)
    ensures r.None? <==> s.None?
    ensures r.Some? && r.value != [] ==> !IsTrimmable(r.value[0]) && !IsTrimmable(r.value[|r.value| - 1])
  {
    if s.None? then None else Some(Trim(CollapseWhitespace(s.value)))
  }

  /**
   * The result has no `\s` at either end, no `\s` other than the blank, and no two
   * neighbouring `\s` characters.
   */
  lemma CollapseAndTrimShape(s: Option<string>)
    requires s.Some?
    ensures Collapsed(CollapseAndTrim(s).value)
    ensures CollapseAndTrim(s).value != [] ==>
              !IsRegexSpace(CollapseAndTrim(s).value[0]) &&
              !IsRegexSpace(CollapseAndTrim(s).value[|CollapseAndTrim(s).value| - 1])
  {
    var collapsed := CollapseWhitespace(s.value);
    var i, j :| 0 <= i <= j <= |collapsed| && Trim(collapsed) == collapsed[i..j];
    CollapsedSlice(collapsed, i, j);
  }

  /** Trimming a trimmed value again changes nothing. */
  lemma CollapseAndTrimIdempotent(s: Option<string>)
    ensures CollapseAndTrim(CollapseAndTrim(s)) == CollapseAndTrim(s)
  {
    if s.Some? {
      var t := CollapseAndTrim(s).value;
      CollapseAndTrimShape(s);
      CollapseKeepsCollapsed(t);
      TrimKeepsTrimmed(t);
    }
  }

  /** The seleniumnodes `NodeDoc.Option`: a name and a description, nothing else. */
  datatype NodeOption = NodeOption(name: Option<string>, description: Option<string>)

  /** `NodeDoc.OptionTab`: the description stays null unless the tab has one. */
  datatype OptionTab = OptionTab(name: Option<string>, description: Option<string>, options: seq<NodeOption>)

  /** `NodeDoc.Port`: `optional` is null for an output port. */
  datatype Port = Port(index: int, name: Option<string>, description: Option<string>, optional: Option<bool>)

  datatype View = View(index: int, name: Option<string>, description: Option<string>)

  /** The option read from one `option` element. */
  function OptionOf(option: XNode): (o: NodeOption)
    ensures o.name == SelectionAttr([option], "name")
    ensures o.description == CollapseAndTrim(Some(InnerHtml(option)))
  {
    NodeOption(SelectionAttr([option], "name"), CollapseAndTrim(SelectionHtml([option])))
  }

  /** The options of a selection, one per element, in document order. */
  function OptionsOf(options: seq<XNode>): (r: seq<NodeOption>)
    ensures |r| == |options|
    ensures forall i :: 0 <= i < |options| ==> r[i] == OptionOf(options[i])
  {
    seq(|options|, i requires 0 <= i < |options| => OptionOf(options[i]))
  }

  /** `parseOptions`: a new list, one option per selected element. */
  method ParseOptions(options: seq<XNode>) returns (optionsJson: seq<NodeOption>)
    ensures optionsJson == OptionsOf(options)
  {
    optionsJson := [];
    for k := 0 to |options|
      invariant |optionsJson| == k
      invariant forall i :: 0 <= i < k ==> optionsJson[i] == OptionOf(options[i])
    {
      var option := options[k];
      var optionObject := NodeOption(SelectionAttr([option], "name"), CollapseAndTrim(SelectionHtml([option])));
      optionsJson := optionsJson + [optionObject];
    }
  }

  /** The description of a tab: the trimmed text of its `description` elements, if it has any. */
  function TabDescriptionOf(tab: XNode): (r: Option<string>)
    ensures r.None? <==> Find([tab], "description") == []
    ensures r.Some? ==> r == CollapseAndTrim(Some(SelectionText(Find([tab], "description"))))
  {
    var description := Find([tab], "description");
    if |description| > 0 then CollapseAndTrim(Some(SelectionText(description))) else None
  }

  /** The option tab read from one `tab` element. */
  function TabOf(tab: XNode): (t: OptionTab)
    ensures t.name == SelectionAttr([tab], "name")
    ensures t.description.None? <==> Find([tab], "description") == []
    ensures t.options == OptionsOf(Find([tab], "option"))
  {
    OptionTab(SelectionAttr([tab], "name"), TabDescriptionOf(tab), OptionsOf(Find([tab], "option")))
  }

  function TabsOf(tabs: seq<XNode>): (r: seq<OptionTab>)
    ensures |r| == |tabs|
    ensures forall i :: 0 <= i < |tabs| ==> r[i] == TabOf(tabs[i])
  {
    seq(|tabs|, i requires 0 <= i < |tabs| => TabOf(tabs[i]))
  }

  /** The body of the tab loop in `parse`: name, description when present, then the options. */
  method ReadTab(tab: XNode) returns (optionTab: OptionTab)
    ensures optionTab == OptionTab(SelectionAttr([tab], "name"), TabDescriptionOf(tab), OptionsOf(Find([tab], "option")))
  {
    var description: Option<string> := None;
    var descriptionElements := Find([tab], "description");
    if |descriptionElements| > 0 {
      description := CollapseAndTrim(Some(SelectionText(descriptionElements)));
    }
    var options := ParseOptions(Find([tab], "option"));
    optionTab := OptionTab(SelectionAttr([tab], "name"), description, options);
  }

  lemma PrefixStep<T>(s: seq<T>, k: nat)
    requires k < |s|
    ensures s[..k + 1] == s[..k] + [s[k]]
  {
  }

  /** The tab loop of `parse`: one option tab per `tab` element, in document order. */
  method ParseOptionTabs(tabs: seq<XNode>) returns (optionTabs: seq<OptionTab>)
    ensures optionTabs == TabsOf(tabs)
  {
    ghost var all := TabsOf(tabs);
    optionTabs := [];
    for k := 0 to |tabs|
      invariant optionTabs == all[..k]
    {
      var optionTab := ReadTab(tabs[k]);
      assert optionTab == all[k];
      PrefixStep(all, k);
      optionTabs := optionTabs + [optionTab];
    }
    assert all[..|tabs|] == all;
  }

  /** `Boolean.valueOf(Optional.ofNullable(attr).orElse("false"))`: the in-port `optional` flag. */
  function InPortOptional(attr: Option<string>): (b: bool)
    ensures attr.None? ==> !b
    ensures b <==> attr.Some? && EqualsIgnoreCase(attr.value, "true")
  {
    NodeDocJsonParser.BooleanValueOf(attr.GetOr("false"))
  }

  /** The port read from one port element; only an input port has `optional`. */
  function PortOf(port: XNode, isInPort: bool): (r: Result<Port>)
    ensures r.Failure? <==> ValueOf(SelectionAttr([port], "index")).Failure?
    ensures r.Success? ==> r.value.index == ValueOf(SelectionAttr([port], "index")).value
    ensures r.Success? ==> r.value.name == SelectionAttr([port], "name")
    ensures r.Success? ==> r.value.description == CollapseAndTrim(Some(InnerHtml(port)))
    ensures r.Success? ==> (r.value.optional.Some? <==> isInPort)
    ensures r.Success? && isInPort ==> r.value.optional.value == InPortOptional(SelectionAttr([port], "optional"))
  {
    var index := ValueOf(SelectionAttr([port], "index"));
    if index.Failure? then Failure(index.error)
    else
      Success(Port(index.value, SelectionAttr([port], "name"), CollapseAndTrim(SelectionHtml([port])),
                   if isInPort then Some(InPortOptional(SelectionAttr([port], "optional"))) else None))
  }

  /** The ports of a selection, in document order; the first unreadable index aborts. */
  function PortsOf(ports: seq<XNode>, isInPort: bool): (r: Result<seq<Port>>)
    ensures r.Failure? <==> NodeDocJsonParser.SomeBadIndex(ports)
    ensures r.Success? ==> |r.value| == |ports|
    ensures r.Success? ==> forall i :: 0 <= i < |ports| ==> PortOf(ports[i], isInPort) == Success(r.value[i])
  {
    var rs := seq(|ports|, i requires 0 <= i < |ports| => PortOf(ports[i], isInPort));
    assert forall i :: 0 <= i < |ports| ==>
             (rs[i].Failure? <==> ValueOf(SelectionAttr([ports[i]], "index")).Failure?);
    Collect(rs)
  }

  /** The body of the loop in `parsePorts`: one `Port` object, or the exception of `Integer.valueOf`. */
  method ReadPort(port: XNode, isInPort: bool) returns (r: Result<Port>)
    ensures r == PortOf(port, isInPort)
  {
    var index := ValueOf(SelectionAttr([port], "index"));
    if index.Failure? {
      return Failure(index.error);
    }
    var optional: Option<bool> := None;
    if isInPort {
      optional := Some(NodeDocJsonParser.BooleanValueOf(SelectionAttr([port], "optional").GetOr("false")));
    }
    r := Success(Port(index.value, SelectionAttr([port], "name"), CollapseAndTrim(SelectionHtml([port])), optional));
  }

  /** `parsePorts`: a new list, one port per selected element, or the exception of the first bad index. */
  method ParsePorts(ports: seq<XNode>, isInPort: bool) returns (r: Result<seq<Port>>)
    ensures r.Failure? <==> PortsOf(ports, isInPort).Failure?
    ensures r.Success? ==> r == PortsOf(ports, isInPort)
  {
    var portsJson: seq<Port> := [];
    for k := 0 to |ports|
      invariant |portsJson| == k
      invariant forall i :: 0 <= i < k ==> PortOf(ports[i], isInPort) == Success(portsJson[i])
    {
      var portObject := ReadPort(ports[k], isInPort);
      if portObject.Failure? {
        PortsOfBadIndex(ports, isInPort, k);
        return Failure(portObject.error);
      }
      PortsReadStep(ports, isInPort, portsJson, portObject.value);
      portsJson := portsJson + [portObject.value];
    }
    PortsOfAllRead(ports, isInPort, portsJson);
    r := Success(portsJson);
  }

  /** One unreadable index makes the whole port list fail. */
  lemma PortsOfBadIndex(ports: seq<XNode>, isInPort: bool, k: nat)
    requires k < |ports| && ValueOf(SelectionAttr([ports[k]], "index")).Failure?
    ensures PortsOf(ports, isInPort).Failure?
  {
    assert NodeDocJsonParser.SomeBadIndex(ports);
  }

  /** One more port read: the ports read so far, then this one. */
  lemma PortsReadStep(ports: seq<XNode>, isInPort: bool, parsed: seq<Port>, p: Port)
    requires |parsed| < |ports|
    requires forall i :: 0 <= i < |parsed| ==> PortOf(ports[i], isInPort) == Success(parsed[i])
    requires PortOf(ports[|parsed|], isInPort) == Success(p)
    ensures forall i :: 0 <= i < |parsed| + 1 ==> PortOf(ports[i], isInPort) == Success((parsed + [p])[i])
  {
    forall i | 0 <= i < |parsed| + 1 ensures PortOf(ports[i], isInPort) == Success((parsed + [p])[i]) {
      if i < |parsed| {
        assert (parsed + [p])[i] == parsed[i];
      }
    }
  }

  /** When every port reads, the list is exactly the ports read one by one. */
  lemma PortsOfAllRead(ports: seq<XNode>, isInPort: bool, parsed: seq<Port>)
    requires |parsed| == |ports|
    requires forall i :: 0 <= i < |ports| ==> PortOf(ports[i], isInPort) == Success(parsed[i])
    ensures PortsOf(ports, isInPort) == Success(parsed)
  {
    var expected := PortsOf(ports, isInPort);
    assert expected.Success? by {
      forall i | 0 <= i < |ports| ensures ValueOf(SelectionAttr([ports[i]], "index")).Success? {
        assert PortOf(ports[i], isInPort).Success?;
      }
    }
    assert expected.value == parsed;
  }

  /** The view read from one `view` element. */
  function ViewOf(view: XNode): (r: Result<View>)
    ensures r.Failure? <==> ValueOf(SelectionAttr([view], "index")).Failure?
    ensures r.Success? ==> r.value.index == ValueOf(SelectionAttr([view], "index")).value
    ensures r.Success? ==> r.value.name == SelectionAttr([view], "name")
    ensures r.Success? ==> r.value.description == CollapseAndTrim(Some(InnerHtml(view)))
  {
    var index := ValueOf(SelectionAttr([view], "index"));
    if index.Failure? then Failure(index.error)
    else Success(View(index.value, SelectionAttr([view], "name"), CollapseAndTrim(SelectionHtml([view]))))
  }

  function ViewsOf(views: seq<XNode>): (r: Result<seq<View>>)
    ensures r.Failure? <==> NodeDocJsonParser.SomeBadIndex(views)
    ensures r.Success? ==> |r.value| == |views|
    ensures r.Success? ==> forall i :: 0 <= i < |views| ==> ViewOf(views[i]) == Success(r.value[i])
  {
    var rs := seq(|views|, i requires 0 <= i < |views| => ViewOf(views[i]));
    assert forall i :: 0 <= i < |views| ==>
             (rs[i].Failure? <==> ValueOf(SelectionAttr([views[i]], "index")).Failure?);
    Collect(rs)
  }

  /** The body of the view loop in `parse`: one `View` object, or the exception of `Integer.valueOf`. */
  method ReadView(view: XNode) returns (r: Result<View>)
    ensures r == ViewOf(view)
  {
    var index := ValueOf(SelectionAttr([view], "index"));
    if index.Failure? {
      return Failure(index.error);
    }
    r := Success(View(index.value, SelectionAttr([view], "name"), CollapseAndTrim(SelectionHtml([view]))));
  }

  /** The view loop of `parse`: one view per `view` element, or the exception of the first bad index. */
  method ParseViews(views: seq<XNode>) returns (r: Result<seq<View>>)
    ensures r.Failure? <==> ViewsOf(views).Failure?
    ensures r.Success? ==> r == ViewsOf(views)
  {
    var viewObjects: seq<View> := [];
    for k := 0 to |views|
      invariant |viewObjects| == k
      invariant forall i :: 0 <= i < k ==> ViewOf(views[i]) == Success(viewObjects[i])
    {
      var viewObject := ReadView(views[k]);
      if viewObject.Failure? {
        ViewsOfBadIndex(views, k);
        return Failure(viewObject.error);
      }
      ViewsReadStep(views, viewObjects, viewObject.value);
      viewObjects := viewObjects + [viewObject.value];
    }
    ViewsOfAllRead(views, viewObjects);
    r := Success(viewObjects);
  }

  lemma ViewsOfBadIndex(views: seq<XNode>, k: nat)
    requires k < |views| && ValueOf(SelectionAttr([views[k]], "index")).Failure?
    ensures ViewsOf(views).Failure?
  {
    assert NodeDocJsonParser.SomeBadIndex(views);
  }

  /** One more view read: the views read so far, then this one. */
  lemma ViewsReadStep(views: seq<XNode>, parsed: seq<View>, v: View)
    requires |parsed| < |views|
    requires forall i :: 0 <= i < |parsed| ==> ViewOf(views[i]) == Success(parsed[i])
    requires ViewOf(views[|parsed|]) == Success(v)
    ensures forall i :: 0 <= i < |parsed| + 1 ==> ViewOf(views[i]) == Success((parsed + [v])[i])
  {
    forall i | 0 <= i < |parsed| + 1 ensures ViewOf(views[i]) == Success((parsed + [v])[i]) {
      if i < |parsed| {
        assert (parsed + [v])[i] == parsed[i];
      }
    }
  }

  lemma ViewsOfAllRead(views: seq<XNode>, parsed: seq<View>)
    requires |parsed| == |views|
    requires forall i :: 0 <= i < |views| ==> ViewOf(views[i]) == Success(parsed[i])
    ensures ViewsOf(views) == Success(parsed)
  {
    var expected := ViewsOf(views);
    assert expected.Success? by {
      forall i | 0 <= i < |views| ensures ValueOf(SelectionAttr([views[i]], "index")).Success? {
        assert ViewOf(views[i]).Success?;
      }
    }
    assert expected.value == parsed;
  }

  /** The selections `parse` reads, by their selector paths. */
  function NameElements(document: XNode): seq<XNode> {
    Select([document], ["knimeNode", "name"])
  }

  function ShortDescriptionElements(document: XNode): seq<XNode> {
    Select([document], ["knimeNode", "shortDescription"])
  }

  function IntroElements(document: XNode): seq<XNode> {
    Select([document], ["knimeNode", "fullDescription", "intro"])
  }

  function Tabs(document: XNode): seq<XNode> {
    Select([document], ["knimeNode", "fullDescription", "tab"])
  }

  function FlatOptions(document: XNode): seq<XNode> {
    Select([document], ["knimeNode", "fullDescription", "option"])
  }

  function InPorts(document: XNode): seq<XNode> {
    Select([document], ["knimeNode", "ports", "inPort"])
  }

  function OutPorts(document: XNode): seq<XNode> {
    Select([document], ["knimeNode", "ports", "outPort"])
  }

  function Views(document: XNode): seq<XNode> {
    Select([document], ["knimeNode", "views", "view"])
  }

  /** The fields `parse` assigns, in the order of the seleniumnodes `NodeDoc`. */
  datatype ParsedDoc = ParsedDoc(
    identifier: Option<string>,
    name: Option<string>,
    shortDescription: Option<string>,
    intro: Option<string>,
    optionTabs: Option<seq<OptionTab>>,
    options: Option<seq<NodeOption>>,
    inPorts: Option<seq<Port>>,
    outPorts: Option<seq<Port>>,
    views: Option<seq<View>>)

  /** The fields `parse` sets before it looks at options, ports and views. */
  datatype Header = Header(name: Option<string>, shortDescription: Option<string>, intro: Option<string>,
                           identifier: Option<string>)

  function HeaderOf(document: XNode, nodeIdentifier: Option<string>): (h: Header)
    ensures h.identifier == nodeIdentifier
    ensures h.name.Some? && h.shortDescription.Some?
    ensures h.intro.None? <==> IntroElements(document) == []
  {
    Header(NameOf(document), ShortDescriptionOf(document), IntroOf(document), nodeIdentifier)
  }

  /** The trimmed text of the name elements. */
  function NameOf(document: XNode): (r: Option<string>)
    ensures r.Some?
    ensures NameElements(document) == [] ==> r == Some("")
  {
    CollapseAndTrim(Some(SelectionText(NameElements(document))))
  }

  function ShortDescriptionOf(document: XNode): (r: Option<string>)
    ensures r.Some?
    ensures ShortDescriptionElements(document) == [] ==> r == Some("")
  {
    CollapseAndTrim(Some(SelectionText(ShortDescriptionElements(document))))
  }

  /** `transformIntro` followed by `html()`: the trimmed inner markup of the first intro element, its tables classified. */
  function IntroOf(document: XNode): (r: Option<string>)
    ensures r.None? <==> IntroElements(document) == []
  {
    CollapseAndTrim(SelectionHtml(ClassifyTablesIn(IntroElements(document))))
  }

  /** The option tabs: one per `tab` element, null when there is none. */
  function OptionTabsOf(document: XNode): Option<seq<OptionTab>> {
    if |Tabs(document)| > 0 then Some(TabsOf(Tabs(document))) else None
  }

  /** The flat options: set only when there is no `tab` element. */
  function FlatOptionsOf(document: XNode): Option<seq<NodeOption>> {
    if |Tabs(document)| > 0 then None else Some(OptionsOf(FlatOptions(document)))
  }

  /**
   * What `parse(document, nodeIdentifier)` produces: the exception of the first unreadable
   * port or view index, or the parsed fields.
   */
  function ParseSpec(document: XNode, nodeIdentifier: Option<string>): (r: Result<ParsedDoc>)
    ensures r.Failure? <==> NodeDocJsonParser.SomeBadIndex(InPorts(document)) ||
                            NodeDocJsonParser.SomeBadIndex(OutPorts(document)) ||
                            NodeDocJsonParser.SomeBadIndex(Views(document))
  {
    var inPorts := PortsOf(InPorts(document), true);
    var outPorts := PortsOf(OutPorts(document), false);
    var views := ViewsOf(Views(document));
    if inPorts.Failure? then Failure(inPorts.error)
    else if outPorts.Failure? then Failure(outPorts.error)
    else if views.Failure? then Failure(views.error)
    else Success(Assemble(document, nodeIdentifier, inPorts.value, outPorts.value, views.value))
  }

  /** The fields of a parse in which every index could be read. */
  function Assemble(document: XNode, nodeIdentifier: Option<string>, inPorts: seq<Port>,
                    outPorts: seq<Port>, views: seq<View>): ParsedDoc
  {
    var h := HeaderOf(document, nodeIdentifier);
    ParsedDoc(h.identifier, h.name, h.shortDescription, h.intro, OptionTabsOf(document), FlatOptionsOf(document),
              Some(inPorts), Some(outPorts), if |Views(document)| > 0 then Some(views) else None)
  }

  /** A successful parse is the assembly of the header, the options and the three lists. */
  lemma ParseSpecValue(document: XNode, nodeIdentifier: Option<string>)
    requires ParseSpec(document, nodeIdentifier).Success?
    ensures PortsOf(InPorts(document), true).Success? && PortsOf(OutPorts(document), false).Success?
    ensures ViewsOf(Views(document)).Success?
    ensures ParseSpec(document, nodeIdentifier).value ==
            Assemble(document, nodeIdentifier, PortsOf(InPorts(document), true).value,
                     PortsOf(OutPorts(document), false).value, ViewsOf(Views(document)).value)
  {
  }

  /**
   * Options sit either in tabs or flat, never both: one tab per `tab` element when there
   * is any, each with the options inside it; otherwise the flat options.
   */
  lemma ParsedOptions(document: XNode, nodeIdentifier: Option<string>)
    requires ParseSpec(document, nodeIdentifier).Success?
    ensures ParseSpec(document, nodeIdentifier).value.optionTabs.Some? <==>
            ParseSpec(document, nodeIdentifier).value.options.None?
    ensures ParseSpec(document, nodeIdentifier).value.optionTabs.Some? <==> Tabs(document) != []
    ensures ParseSpec(document, nodeIdentifier).value.optionTabs.Some? ==>
            ParseSpec(document, nodeIdentifier).value.optionTabs.value == TabsOf(Tabs(document))
    ensures ParseSpec(document, nodeIdentifier).value.options.Some? ==>
            ParseSpec(document, nodeIdentifier).value.options.value == OptionsOf(FlatOptions(document))
  {
    ParseSpecValue(document, nodeIdentifier);
  }

  /** Tab `i` has a description exactly when its element has a `description` element inside. */
  lemma ParsedTabDescriptions(document: XNode, nodeIdentifier: Option<string>, i: nat)
    requires ParseSpec(document, nodeIdentifier).Success?
    requires i < |Tabs(document)|
    ensures ParseSpec(document, nodeIdentifier).value.optionTabs.Some?
    ensures i < |ParseSpec(document, nodeIdentifier).value.optionTabs.value|
    ensures ParseSpec(document, nodeIdentifier).value.optionTabs.value[i].description.None? <==>
            Find([Tabs(document)[i]], "description") == []
  {
    ParsedOptions(document, nodeIdentifier);
  }

  /** Every port read with `isInPort` carries `optional`; every other port leaves it null. */
  lemma PortsOptional(ports: seq<XNode>, isInPort: bool)
    requires PortsOf(ports, isInPort).Success?
    ensures forall p :: p in PortsOf(ports, isInPort).value ==> (p.optional.Some? <==> isInPort)
  {
    var parsed := PortsOf(ports, isInPort).value;
    forall p | p in parsed ensures p.optional.Some? <==> isInPort {
      var i :| 0 <= i < |parsed| && parsed[i] == p;
      assert PortOf(ports[i], isInPort) == Success(p);
    }
  }

  /**
   * One port per port element, in document order; every input port carries `optional`,
   * no output port does.
   */
  lemma ParsedPorts(document: XNode, nodeIdentifier: Option<string>)
    requires ParseSpec(document, nodeIdentifier).Success?
    ensures ParseSpec(document, nodeIdentifier).value.inPorts.Some?
    ensures ParseSpec(document, nodeIdentifier).value.outPorts.Some?
    ensures |ParseSpec(document, nodeIdentifier).value.inPorts.value| == |InPorts(document)|
    ensures |ParseSpec(document, nodeIdentifier).value.outPorts.value| == |OutPorts(document)|
    ensures forall p :: p in ParseSpec(document, nodeIdentifier).value.inPorts.value ==> p.optional.Some?
    ensures forall p :: p in ParseSpec(document, nodeIdentifier).value.outPorts.value ==> p.optional.None?
  {
    ParseSpecValue(document, nodeIdentifier);
    PortsOptional(InPorts(document), true);
    PortsOptional(OutPorts(document), false);
  }

  /** An input port without an `optional` attribute reads as not optional. */
  lemma InPortOptionalDefault(port: XNode)
    requires PortOf(port, true).Success?
    requires SelectionAttr([port], "optional").None?
    ensures PortOf(port, true).value.optional == Some(false)
  {
  }

  /** Views stay null without `view` elements and otherwise hold one view per element. */
  lemma ParsedViews(document: XNode, nodeIdentifier: Option<string>)
    requires ParseSpec(document, nodeIdentifier).Success?
    ensures ParseSpec(document, nodeIdentifier).value.views.None? <==> Views(document) == []
    ensures ParseSpec(document, nodeIdentifier).value.views.Some? ==>
            |ParseSpec(document, nodeIdentifier).value.views.value| == |Views(document)|
  {
    ParseSpecValue(document, nodeIdentifier);
  }

  /**
   * Name and short description are never null and come out collapsed and trimmed; the
   * identifier is the argument.
   */
  lemma ParsedHeader(document: XNode, nodeIdentifier: Option<string>)
    requires ParseSpec(document, nodeIdentifier).Success?
    ensures ParseSpec(document, nodeIdentifier).value.name.Some?
    ensures ParseSpec(document, nodeIdentifier).value.shortDescription.Some?
    ensures Collapsed(ParseSpec(document, nodeIdentifier).value.name.value)
    ensures Collapsed(ParseSpec(document, nodeIdentifier).value.shortDescription.value)
    ensures CollapseAndTrim(ParseSpec(document, nodeIdentifier).value.name) == ParseSpec(document, nodeIdentifier).value.name
    ensures ParseSpec(document, nodeIdentifier).value.identifier == nodeIdentifier
  {
    ParseSpecValue(document, nodeIdentifier);
    CollapseAndTrimShape(Some(SelectionText(NameElements(document))));
    CollapseAndTrimShape(Some(SelectionText(ShortDescriptionElements(document))));
    CollapseAndTrimIdempotent(Some(SelectionText(NameElements(document))));
  }

  /**
   * The introduction is null without an `intro` element; otherwise it is the trimmed inner
   * markup of the first one after `transformIntro`, in which every table carries the
   * classes "table", "table-striped" and "table-bordered".
   */
  lemma ParsedIntro(document: XNode, nodeIdentifier: Option<string>)
    requires ParseSpec(document, nodeIdentifier).Success?
    ensures ParseSpec(document, nodeIdentifier).value.intro.None? <==> IntroElements(document) == []
    ensures IntroElements(document) != [] ==>
              ParseSpec(document, nodeIdentifier).value.intro ==
              CollapseAndTrim(Some(InnerHtml(ClassifyTables(IntroElements(document)[0])))) &&
              forall e :: e in Descendants(ClassifyTables(IntroElements(document)[0]), "table") ==> IsClassifiedTable(e)
  {
    ParseSpecValue(document, nodeIdentifier);
    if IntroElements(document) != [] {
      TablesClassified(IntroElements(document)[0]);
    }
  }

  /**
   * A table without attributes inside the introduction is written out as
   * `<table class="table table-striped table-bordered">` followed by its classified content.
   */
  lemma PlainTableSerialized(children: seq<XNode>)
    ensures Serialize(ClassifyTables(Element("table", [], children))) ==
            "<table class=\"" + Join(TableClasses) + "\">" + SerializeAll(ClassifyTablesIn(children)) + "</table>"
  {
    PlainTableAttributes();
    assert ClassifyTables(Element("table", [], children)) ==
           Element("table", [Attribute("class", Join(TableClasses))], ClassifyTablesIn(children));
    ClassedTableSerialized(Join(TableClasses), ClassifyTablesIn(children));
  }

  /** A table with one class attribute, written out. */
  lemma ClassedTableSerialized(classes: string, children: seq<XNode>)
    ensures Serialize(Element("table", [Attribute("class", classes)], children)) ==
            "<table class=\"" + classes + "\">" + SerializeAll(children) + "</table>"
  {
    var inner := SerializeAll(children);
    var open := "<table class=\"";
    var close := "</table>";
    assert SerializeAttributes([Attribute("class", classes)]) == " class=\"" + classes + "\"";
    assert "<" + "table" + " class=\"" == open;
    assert "</" + "table" + ">" == close;
    assert Serialize(Element("table", [Attribute("class", classes)], children)) ==
           open + classes + "\">" + inner + close;
  }

  /**
   * The seleniumnodes NodeDoc object `parse` fills in. Its fields start null; the nested
   * records are values because `parse` never changes them once they are in a list.
   */
  class NodeDoc {
    var identifier: Option<string>
    var name: Option<string>
    var shortDescription: Option<string>
    var intro: Option<string>
    var optionTabs: Option<seq<OptionTab>>
    var options: Option<seq<NodeOption>>
    var inPorts: Option<seq<Port>>
    var outPorts: Option<seq<Port>>
    var views: Option<seq<View>>

    function Value(): ParsedDoc
      reads this
    {
      ParsedDoc(identifier, name, shortDescription, intro, optionTabs, options, inPorts, outPorts, views)
    }

    /** `new NodeDoc()`: every field null. */
    constructor ()
      ensures Value() == ParsedDoc(None, None, None, None, None, None, None, None, None)
    {
      identifier, name, shortDescription, intro := None, None, None, None;
      optionTabs, options, inPorts, outPorts, views := None, None, None, None, None;
    }

    /** The header assignments of `parse`: name, short description, intro and identifier. */
    method SetHeader(h: Header)
      modifies this
      ensures Value() == old(Value()).(name := h.name, shortDescription := h.shortDescription, intro := h.intro,
                                       identifier := h.identifier)
    {
      name, shortDescription, intro, identifier := h.name, h.shortDescription, h.intro, h.identifier;
    }

    /** Options nested in tabs when there are tabs, the flat option list otherwise; the other field is left alone. */
    method ReadOptions(document: XNode)
      modifies this
      ensures |Tabs(document)| > 0 ==> Value() == old(Value()).(optionTabs := Some(TabsOf(Tabs(document))))
      ensures |Tabs(document)| == 0 ==> Value() == old(Value()).(options := Some(OptionsOf(FlatOptions(document))))
    {
      var tabs := Tabs(document);
      if |tabs| > 0 {
        var parsedTabs := ParseOptionTabs(tabs);
        optionTabs := Some(parsedTabs);
      } else {
        var flat := ParseOptions(FlatOptions(document));
        options := Some(flat);
      }
    }

    /** Both port lists, in-ports first; `error` is the exception of the first unreadable index. */
    method ReadPorts(document: XNode) returns (error: Option<string>)
      modifies this
      ensures error.None? <==> PortsOf(InPorts(document), true).Success? && PortsOf(OutPorts(document), false).Success?
      ensures error.None? ==> Value() == old(Value()).(inPorts := Some(PortsOf(InPorts(document), true).value),
                                                       outPorts := Some(PortsOf(OutPorts(document), false).value))
    {
      var parsedIn := ParsePorts(InPorts(document), true);
      if parsedIn.Failure? {
        return Some(parsedIn.error);
      }
      inPorts := Some(parsedIn.value);
      var parsedOut := ParsePorts(OutPorts(document), false);
      if parsedOut.Failure? {
        return Some(parsedOut.error);
      }
      outPorts := Some(parsedOut.value);
      error := None;
    }

    /** The views, set only when the document has some; `error` is the exception of the first unreadable index. */
    method ReadViews(document: XNode) returns (error: Option<string>)
      modifies this
      ensures error.None? <==> ViewsOf(Views(document)).Success?
      ensures error.None? && |Views(document)| > 0 ==> Value() == old(Value()).(views := Some(ViewsOf(Views(document)).value))
      ensures error.None? && |Views(document)| == 0 ==> Value() == old(Value())
    {
      var selection := Views(document);
      if |selection| > 0 {
        var viewObjects := ParseViews(selection);
        if viewObjects.Failure? {
          return Some(viewObjects.error);
        }
        views := Some(viewObjects.value);
      }
      error := None;
    }
  }

  /**
   * `parse`: a fresh `NodeDoc` with its fields assigned in the order of the source, or the
   * exception of the first unreadable index.
   */
  method Parse(document: XNode, nodeIdentifier: Option<string>) returns (r: Result<NodeDoc>)
    ensures r.Failure? <==> ParseSpec(document, nodeIdentifier).Failure?
    ensures r.Success? ==> fresh(r.value) && r.value.Value() == ParseSpec(document, nodeIdentifier).value
  {
    var nodeDoc := new NodeDoc();
    nodeDoc.SetHeader(HeaderOf(document, nodeIdentifier));
    nodeDoc.ReadOptions(document);
    var error := nodeDoc.ReadPorts(document);
    if error.Some? {
      return Failure(error.value);
    }
    error := nodeDoc.ReadViews(document);
    if error.Some? {
      return Failure(error.value);
    }
    r := Success(nodeDoc);
  }
}
