/**
 * The application bundle's `NodeDocJsonParser`: reads a node's XML description (as the
 * element tree of `Markup`) into a fresh `NodeDoc` whose fields it assigns one by one.
 * Options and ports are the earlier `NodeDoc` records; an option tab holds the freshly
 * made list of its options. `Integer.valueOf` on an `index` attribute may throw, which
 * aborts the whole parse.
 */
module NodeDocJsonParser {
  import opened Wrappers
  import opened JavaStrings
  import opened Markup
  import LegacyDocs
  import NodeDocs

  /** `trim`: `String.trim()` of a non-null string; null stays null. */
  function TrimOrNull(s: Option<string>): (r: Option<string>)
    ensures r.None? <==> s.None?
    ensures r.Some? && r.value != [] ==> !IsTrimmable(r.value[0]) && !IsTrimmable(r.value[|r.value| - 1])
    ensures r.Some? ==> exists i, j :: 0 <= i <= j <= |s.value| && r.value == s.value[i..j]
  {
    if s.None? then None else Some(Trim(s.value))
  }

  /** Trimming an already trimmed value changes nothing. */
  lemma TrimOrNullIdempotent(s: Option<string>)
    ensures TrimOrNull(TrimOrNull(s)) == TrimOrNull(s)
  {
    if s.Some? {
      TrimIdempotent(s.value);
    }
  }

  /** `Boolean.valueOf(s)` for a non-null `s`. */
  predicate BooleanValueOf(s: string) {
    EqualsIgnoreCase(s, "true")
  }

  /** `parseOptionalBoolean`: `Boolean.valueOf` of the string, null read as "false". */
  function ParseOptionalBoolean(s: Option<string>): (b: bool)
    ensures s.None? ==> !b
    ensures b <==> s.Some? && EqualsIgnoreCase(s.value, "true")
  {
    BooleanValueOf(s.GetOr("false"))
  }

  /** An option tab as the parser fills it: a name and a list made for it alone. */
  datatype OptionTab = OptionTab(name: Option<string>, options: seq<LegacyDocs.LegacyOption>)

  /** The option read from one `option` element. */
  function OptionOf(option: XNode): (o: LegacyDocs.LegacyOption)
    ensures o.name == SelectionAttr([option], "name")
    ensures o.description == TrimOrNull(SelectionHtml([option])) && o.description.Some?
    ensures o.optional <==> SelectionAttr([option], "optional").Some? &&
                            EqualsIgnoreCase(SelectionAttr([option], "optional").value, "true")
  {
    LegacyDocs.LegacyOption(SelectionAttr([option], "name"), TrimOrNull(SelectionHtml([option])),
                            ParseOptionalBoolean(SelectionAttr([option], "optional")))
  }

  /** The options of a selection, one per element, in document order. */
  function OptionsOf(options: seq<XNode>): (r: seq<LegacyDocs.LegacyOption>)
    ensures |r| == |options|
    ensures forall i :: 0 <= i < |options| ==> r[i] == OptionOf(options[i])
  {
    seq(|options|, i requires 0 <= i < |options| => OptionOf(options[i]))
  }

  /** `parseOptions`: a new list, one option per selected element. */
  method ParseOptions(options: seq<XNode>) returns (optionsJson: seq<LegacyDocs.LegacyOption>)
    ensures optionsJson == OptionsOf(options)
  {
    optionsJson := [];
    for k := 0 to |options|
      invariant |optionsJson| == k
      invariant forall i :: 0 <= i < k ==> optionsJson[i] == OptionOf(options[i])
    {
      var option := options[k];
      var optionObject := LegacyDocs.LegacyOption(SelectionAttr([option], "name"),
                                                  TrimOrNull(SelectionHtml([option])),
                                                  ParseOptionalBoolean(SelectionAttr([option], "optional")));
      optionsJson := optionsJson + [optionObject];
    }
  }

  /** Whether some element among `elements` has an `index` that `Integer.valueOf` rejects. */
  predicate SomeBadIndex(elements: seq<XNode>) {
    exists i :: 0 <= i < |elements| && ValueOf(SelectionAttr([elements[i]], "index")).Failure?
  }

  /** The port read from one port element; only an input port has `optional`. */
  function PortOf(port: XNode, isInPort: bool): (r: Result<LegacyDocs.LegacyPort>)
    ensures r.Failure? <==> ValueOf(SelectionAttr([port], "index")).Failure?
    ensures r.Success? ==> r.value.index == ValueOf(SelectionAttr([port], "index")).value
    ensures r.Success? ==> r.value.name == SelectionAttr([port], "name")
    ensures r.Success? ==> r.value.description == TrimOrNull(SelectionHtml([port]))
    ensures r.Success? ==> (r.value.optional.Some? <==> isInPort)
    ensures r.Success? && isInPort ==> r.value.optional.value == ParseOptionalBoolean(SelectionAttr([port], "optional"))
  {
    var index := ValueOf(SelectionAttr([port], "index"));
    if index.Failure? then Failure(index.error)
    else
      Success(LegacyDocs.LegacyPort(index.value, SelectionAttr([port], "name"), TrimOrNull(SelectionHtml([port])),
                                    if isInPort then Some(ParseOptionalBoolean(SelectionAttr([port], "optional"))) else None))
  }

  /** The ports of a selection, in document order; the first unreadable index aborts. */
  function PortsOf(ports: seq<XNode>, isInPort: bool): (r: Result<seq<LegacyDocs.LegacyPort>>)
    ensures r.Failure? <==> SomeBadIndex(ports)
    ensures r.Success? ==> |r.value| == |ports|
    ensures r.Success? ==> forall i :: 0 <= i < |ports| ==> PortOf(ports[i], isInPort) == Success(r.value[i])
  {
    var rs := seq(|ports|, i requires 0 <= i < |ports| => PortOf(ports[i], isInPort));
    assert forall i :: 0 <= i < |ports| ==>
             (rs[i].Failure? <==> ValueOf(SelectionAttr([ports[i]], "index")).Failure?);
    Collect(rs)
  }

  /** `parsePorts`: a new list, one port per selected element, or the exception of the first bad index. */
  method ParsePorts(ports: seq<XNode>, isInPort: bool) returns (r: Result<seq<LegacyDocs.LegacyPort>>)
    ensures r.Failure? <==> PortsOf(ports, isInPort).Failure?
    ensures r.Success? ==> r == PortsOf(ports, isInPort)
  {
    var portsJson: seq<LegacyDocs.LegacyPort> := [];
    for k := 0 to |ports|
      invariant |portsJson| == k
      invariant forall i :: 0 <= i < k ==> PortOf(ports[i], isInPort) == Success(portsJson[i])
    {
      var portObject := ReadPort(ports[k], isInPort);
      if portObject.Failure? {
        PortsOfBadIndex(ports, isInPort, k);
        return Failure(portObject.error);
      }
      PortsReadStep(ports, isInPort, portsJson, portObject.value);
      portsJson := portsJson + [portObject.value];
    }
    PortsOfAllRead(ports, isInPort, portsJson);
    r := Success(portsJson);
  }

  /** The body of the loop in `parsePorts`: one `Port` object, or the exception of `Integer.valueOf`. */
  method ReadPort(port: XNode, isInPort: bool) returns (r: Result<LegacyDocs.LegacyPort>)
    ensures r == PortOf(port, isInPort)
  {
    var index := ValueOf(SelectionAttr([port], "index"));
    if index.Failure? {
      return Failure(index.error);
    }
    var optional: Option<bool> := None;
    if isInPort {
      optional := Some(ParseOptionalBoolean(SelectionAttr([port], "optional")));
    }
    r := Success(LegacyDocs.LegacyPort(index.value, SelectionAttr([port], "name"),
                                       TrimOrNull(SelectionHtml([port])), optional));
  }

  /** One unreadable index makes the whole port list fail. */
  lemma PortsOfBadIndex(ports: seq<XNode>, isInPort: bool, k: nat)
    requires k < |ports| && ValueOf(SelectionAttr([ports[k]], "index")).Failure?
    ensures PortsOf(ports, isInPort).Failure?
  {
    assert SomeBadIndex(ports);
  }

  /** One more port read: the ports read so far, then this one. */
  lemma PortsReadStep(ports: seq<XNode>, isInPort: bool, parsed: seq<LegacyDocs.LegacyPort>, p: LegacyDocs.LegacyPort)
    requires |parsed| < |ports|
    requires forall i :: 0 <= i < |parsed| ==> PortOf(ports[i], isInPort) == Success(parsed[i])
    requires PortOf(ports[|parsed|], isInPort) == Success(p)
    ensures forall i :: 0 <= i < |parsed| + 1 ==> PortOf(ports[i], isInPort) == Success((parsed + [p])[i])
  {
    forall i | 0 <= i < |parsed| + 1 ensures PortOf(ports[i], isInPort) == Success((parsed + [p])[i]) {
      if i < |parsed| {
        assert (parsed + [p])[i] == parsed[i];
      }
    }
  }

  /** When every port reads, the list is exactly the ports read one by one. */
  lemma PortsOfAllRead(ports: seq<XNode>, isInPort: bool, parsed: seq<LegacyDocs.LegacyPort>)
    requires |parsed| == |ports|
    requires forall i :: 0 <= i < |ports| ==> PortOf(ports[i], isInPort) == Success(parsed[i])
    ensures PortsOf(ports, isInPort) == Success(parsed)
  {
    var expected := PortsOf(ports, isInPort);
    assert expected.Success? by {
      forall i | 0 <= i < |ports| ensures ValueOf(SelectionAttr([ports[i]], "index")).Success? {
        assert PortOf(ports[i], isInPort).Success?;
      }
    }
    assert expected.value == parsed;
  }

  /** The view read from one `view` element. */
  function ViewOf(view: XNode): (r: Result<NodeDocs.View>)
    ensures r.Failure? <==> ValueOf(SelectionAttr([view], "index")).Failure?
    ensures r.Success? ==> r.value.index == ValueOf(SelectionAttr([view], "index")).value
    ensures r.Success? ==> r.value.name == SelectionAttr([view], "name")
    ensures r.Success? ==> r.value.description == TrimOrNull(SelectionHtml([view]))
  {
    var index := ValueOf(SelectionAttr([view], "index"));
    if index.Failure? then Failure(index.error)
    else Success(NodeDocs.View(index.value, SelectionAttr([view], "name"), TrimOrNull(SelectionHtml([view]))))
  }

  function ViewsOf(views: seq<XNode>): (r: Result<seq<NodeDocs.View>>)
    ensures r.Failure? <==> SomeBadIndex(views)
    ensures r.Success? ==> |r.value| == |views|
    ensures r.Success? ==> forall i :: 0 <= i < |views| ==> ViewOf(views[i]) == Success(r.value[i])
  {
    var rs := seq(|views|, i requires 0 <= i < |views| => ViewOf(views[i]));
    assert forall i :: 0 <= i < |views| ==>
             (rs[i].Failure? <==> ValueOf(SelectionAttr([views[i]], "index")).Failure?);
    Collect(rs)
  }

  /** The option tab read from one `tab` element: its name and the options inside it. */
  function TabOf(tab: XNode): (t: OptionTab)
    ensures t.name == SelectionAttr([tab], "name")
    ensures t.options == OptionsOf(Find([tab], "option"))
  {
    OptionTab(SelectionAttr([tab], "name"), OptionsOf(Find([tab], "option")))
  }

  function TabsOf(tabs: seq<XNode>): (r: seq<OptionTab>)
    ensures |r| == |tabs|
    ensures forall i :: 0 <= i < |tabs| ==> r[i] == TabOf(tabs[i])
  {
    seq(|tabs|, i requires 0 <= i < |tabs| => TabOf(tabs[i]))
  }

  /** The interactive view, present only when the description has an `interactiveView` element. */
  function InteractiveViewOf(selection: seq<XNode>): (r: Option<NodeDocs.InteractiveView>)
    ensures r.None? <==> selection == []
    ensures r.Some? ==> r.value.name == SelectionAttr(selection, "name")
    ensures r.Some? ==> r.value.description == TrimOrNull(SelectionHtml(selection)) && r.value.description.Some?
  {
    if |selection| > 0 then Some(NodeDocs.InteractiveView(SelectionAttr(selection, "name"), TrimOrNull(SelectionHtml(selection))))
    else None
  }

  /** The fields `parse` assigns; `nodeType` is the Java field `type`. */
  datatype ParsedDoc = ParsedDoc(
    name: Option<string>,
    shortDescription: Option<string>,
    intro: Option<string>,
    identifier: Option<string>,
    icon: Option<string>,
    nodeType: Option<string>,
    deprecated: bool,
    optionTabs: Option<seq<OptionTab>>,
    options: Option<seq<LegacyDocs.LegacyOption>>,
    inPorts: Option<seq<LegacyDocs.LegacyPort>>,
    outPorts: Option<seq<LegacyDocs.LegacyPort>>,
    views: Option<seq<NodeDocs.View>>,
    interactiveView: Option<NodeDocs.InteractiveView>)

  /** The selections `parse` reads, by their selector paths. */
  function NameElements(document: XNode): seq<XNode> {
    Select([document], ["knimeNode", "name"])
  }

  function ShortDescriptionElements(document: XNode): seq<XNode> {
    Select([document], ["knimeNode", "shortDescription"])
  }

  function IntroElements(document: XNode): seq<XNode> {
    Select([document], ["knimeNode", "fullDescription", "intro"])
  }

  function Tabs(document: XNode): seq<XNode> {
    Select([document], ["knimeNode", "fullDescription", "tab"])
  }

  function FlatOptions(document: XNode): seq<XNode> {
    Select([document], ["knimeNode", "fullDescription", "option"])
  }

  function InPorts(document: XNode): seq<XNode> {
    Select([document], ["knimeNode", "ports", "inPort"])
  }

  function OutPorts(document: XNode): seq<XNode> {
    Select([document], ["knimeNode", "ports", "outPort"])
  }

  function Views(document: XNode): seq<XNode> {
    Select([document], ["knimeNode", "views", "view"])
  }

  function InteractiveViews(document: XNode): seq<XNode> {
    Select([document], ["knimeNode", "interactiveView"])
  }

  function RootElements(document: XNode): seq<XNode> {
    Find([document], "knimeNode")
  }

  /**
   * What `parse(document, nodeIdentifier)` produces: the exception of the first unreadable
   * port or view index, or the parsed fields.
   */
  function ParseSpec(document: XNode, nodeIdentifier: Option<string>): (r: Result<ParsedDoc>)
    ensures r.Failure? <==> SomeBadIndex(InPorts(document)) || SomeBadIndex(OutPorts(document)) ||
                            SomeBadIndex(Views(document))
  {
    var inPorts := PortsOf(InPorts(document), true);
    var outPorts := PortsOf(OutPorts(document), false);
    var views := ViewsOf(Views(document));
    if inPorts.Failure? then Failure(inPorts.error)
    else if outPorts.Failure? then Failure(outPorts.error)
    else if views.Failure? then Failure(views.error)
    else Success(Assemble(document, nodeIdentifier, inPorts.value, outPorts.value, views.value))
  }

  /** The fields of a parse in which every index could be read. */
  function Assemble(document: XNode, nodeIdentifier: Option<string>, inPorts: seq<LegacyDocs.LegacyPort>,
                    outPorts: seq<LegacyDocs.LegacyPort>, views: seq<NodeDocs.View>): ParsedDoc
  {
    var h := HeaderOf(document, nodeIdentifier);
    ParsedDoc(h.name, h.shortDescription, h.intro, h.identifier, h.icon, h.nodeType, h.deprecated, OptionTabsOf(document),
              FlatOptionsOf(document), Some(inPorts), Some(outPorts),
              if |Views(document)| > 0 then Some(views) else None,
              InteractiveViewOf(InteractiveViews(document)))
  }

  /** The fields `parse` sets before it looks at options, ports and views. */
  datatype Header = Header(name: Option<string>, shortDescription: Option<string>, intro: Option<string>,
                           identifier: Option<string>, icon: Option<string>, nodeType: Option<string>,
                           deprecated: bool)

  function HeaderOf(document: XNode, nodeIdentifier: Option<string>): (h: Header)
    ensures h.identifier == nodeIdentifier
    ensures h.name.Some? && h.shortDescription.Some?
    ensures h.intro.None? <==> IntroElements(document) == []
    ensures RootElements(document) == [] ==> h.icon.None? && h.nodeType.None? && !h.deprecated
  {
    Header(NameOf(document), ShortDescriptionOf(document), IntroOf(document), nodeIdentifier,
           IconOf(document), TypeOf(document), DeprecatedOf(document))
  }

  /** The trimmed text of the name elements. */
  function NameOf(document: XNode): (r: Option<string>)
    ensures r.Some?
    ensures NameElements(document) == [] ==> r == Some("")
  {
    TrimOrNull(Some(SelectionText(NameElements(document))))
  }

  function ShortDescriptionOf(document: XNode): (r: Option<string>)
    ensures r.Some?
    ensures ShortDescriptionElements(document) == [] ==> r == Some("")
  {
    TrimOrNull(Some(SelectionText(ShortDescriptionElements(document))))
  }

  /** The trimmed inner markup of the first intro element. */
  function IntroOf(document: XNode): (r: Option<string>)
    ensures r.None? <==> IntroElements(document) == []
  {
    TrimOrNull(SelectionHtml(IntroElements(document)))
  }

  function IconOf(document: XNode): (r: Option<string>)
    ensures RootElements(document) == [] ==> r.None?
    ensures r.Some? ==> RootElements(document)[0].Element? &&
                        r == AttributeValue(RootElements(document)[0].attributes, "icon")
  {
    SelectionAttr(RootElements(document), "icon")
  }

  function TypeOf(document: XNode): (r: Option<string>)
    ensures RootElements(document) == [] ==> r.None?
    ensures r.Some? ==> RootElements(document)[0].Element? &&
                        r == AttributeValue(RootElements(document)[0].attributes, "type")
  {
    SelectionAttr(RootElements(document), "type")
  }

  function DeprecatedOf(document: XNode): (b: bool)
    ensures b ==> RootElements(document) != [] && RootElements(document)[0].Element?
  {
    ParseOptionalBoolean(SelectionAttr(RootElements(document), "deprecated"))
  }

  /** The option tabs: one per `tab` element, null when there is none. */
  function OptionTabsOf(document: XNode): Option<seq<OptionTab>> {
    if |Tabs(document)| > 0 then Some(TabsOf(Tabs(document))) else None
  }

  /** The flat options: set only when there is no `tab` element. */
  function FlatOptionsOf(document: XNode): Option<seq<LegacyDocs.LegacyOption>> {
    if |Tabs(document)| > 0 then None else Some(OptionsOf(FlatOptions(document)))
  }

  /**
   * Options sit either in tabs or flat, never both: one tab per `tab` element when there
   * is any, each with the options inside it; otherwise the flat options.
   */
  lemma ParsedOptions(document: XNode, nodeIdentifier: Option<string>)
    requires ParseSpec(document, nodeIdentifier).Success?
    ensures ParseSpec(document, nodeIdentifier).value.optionTabs.Some? <==>
            ParseSpec(document, nodeIdentifier).value.options.None?
    ensures ParseSpec(document, nodeIdentifier).value.optionTabs.Some? <==> Tabs(document) != []
    ensures ParseSpec(document, nodeIdentifier).value.optionTabs.Some? ==>
            ParseSpec(document, nodeIdentifier).value.optionTabs.value == TabsOf(Tabs(document))
    ensures ParseSpec(document, nodeIdentifier).value.options.Some? ==>
            ParseSpec(document, nodeIdentifier).value.options.value == OptionsOf(FlatOptions(document))
  {
  }

  /**
   * One port per port element, in document order; every input port carries `optional`,
   * no output port does.
   */
  lemma ParsedPorts(document: XNode, nodeIdentifier: Option<string>)
    requires ParseSpec(document, nodeIdentifier).Success?
    ensures ParseSpec(document, nodeIdentifier).value.inPorts.Some?
    ensures ParseSpec(document, nodeIdentifier).value.outPorts.Some?
    ensures |ParseSpec(document, nodeIdentifier).value.inPorts.value| == |InPorts(document)|
    ensures |ParseSpec(document, nodeIdentifier).value.outPorts.value| == |OutPorts(document)|
    ensures forall p :: p in ParseSpec(document, nodeIdentifier).value.inPorts.value ==> p.optional.Some?
    ensures forall p :: p in ParseSpec(document, nodeIdentifier).value.outPorts.value ==> p.optional.None?
  {
    ParseSpecValue(document, nodeIdentifier);
    PortsOptional(InPorts(document), true);
    PortsOptional(OutPorts(document), false);
  }

  /** A successful parse is the assembly of the header, the options and the three lists. */
  lemma ParseSpecValue(document: XNode, nodeIdentifier: Option<string>)
    requires ParseSpec(document, nodeIdentifier).Success?
    ensures PortsOf(InPorts(document), true).Success? && PortsOf(OutPorts(document), false).Success?
    ensures ViewsOf(Views(document)).Success?
    ensures ParseSpec(document, nodeIdentifier).value ==
            Assemble(document, nodeIdentifier, PortsOf(InPorts(document), true).value,
                     PortsOf(OutPorts(document), false).value, ViewsOf(Views(document)).value)
  {
  }

  /** Every port read with `isInPort` carries `optional`; every other port leaves it null. */
  lemma PortsOptional(ports: seq<XNode>, isInPort: bool)
    requires PortsOf(ports, isInPort).Success?
    ensures forall p :: p in PortsOf(ports, isInPort).value ==> (p.optional.Some? <==> isInPort)
  {
    var parsed := PortsOf(ports, isInPort).value;
    forall p | p in parsed ensures p.optional.Some? <==> isInPort {
      var i :| 0 <= i < |parsed| && parsed[i] == p;
      assert PortOf(ports[i], isInPort) == Success(p);
    }
  }

  /**
   * Views stay null without `view` elements and otherwise hold one view per element; the
   * interactive view stays null without an `interactiveView` element.
   */
  lemma ParsedViews(document: XNode, nodeIdentifier: Option<string>)
    requires ParseSpec(document, nodeIdentifier).Success?
    ensures ParseSpec(document, nodeIdentifier).value.views.None? <==> Views(document) == []
    ensures ParseSpec(document, nodeIdentifier).value.views.Some? ==>
            |ParseSpec(document, nodeIdentifier).value.views.value| == |Views(document)|
    ensures ParseSpec(document, nodeIdentifier).value.interactiveView.None? <==> InteractiveViews(document) == []
  {
  }

  /**
   * The node's name and short description are never null and come out trimmed; the
   * identifier is the argument; icon and type are attributes of the `knimeNode` element.
   */
  lemma ParsedHeader(document: XNode, nodeIdentifier: Option<string>)
    requires ParseSpec(document, nodeIdentifier).Success?
    ensures ParseSpec(document, nodeIdentifier).value.name.Some?
    ensures ParseSpec(document, nodeIdentifier).value.shortDescription.Some?
    ensures TrimOrNull(ParseSpec(document, nodeIdentifier).value.name) == ParseSpec(document, nodeIdentifier).value.name
    ensures ParseSpec(document, nodeIdentifier).value.identifier == nodeIdentifier
    ensures ParseSpec(document, nodeIdentifier).value.icon == SelectionAttr(RootElements(document), "icon")
    ensures ParseSpec(document, nodeIdentifier).value.nodeType == SelectionAttr(RootElements(document), "type")
  {
    TrimOrNullIdempotent(Some(SelectionText(NameElements(document))));
  }

  /**
   * The NodeDoc object `parse` fills in. Its fields start null or false; the nested
   * records are values because `parse` never changes them once they are in a list.
   */
  class NodeDoc {
    var name: Option<string>
    var shortDescription: Option<string>
    var intro: Option<string>
    var identifier: Option<string>
    var icon: Option<string>
    var nodeType: Option<string>
    var deprecated: bool
    var optionTabs: Option<seq<OptionTab>>
    var options: Option<seq<LegacyDocs.LegacyOption>>
    var inPorts: Option<seq<LegacyDocs.LegacyPort>>
    var outPorts: Option<seq<LegacyDocs.LegacyPort>>
    var views: Option<seq<NodeDocs.View>>
    var interactiveView: Option<NodeDocs.InteractiveView>

    function Value(): ParsedDoc
      reads this
    {
      ParsedDoc(name, shortDescription, intro, identifier, icon, nodeType, deprecated, optionTabs, options,
                inPorts, outPorts, views, interactiveView)
    }

    /** `new NodeDoc()`: every field null or false. */
    constructor ()
      ensures Value() == ParsedDoc(None, None, None, None, None, None, false, None, None, None, None, None, None)
    {
      name, shortDescription, intro, identifier, icon, nodeType := None, None, None, None, None, None;
      deprecated := false;
      optionTabs, options, inPorts, outPorts, views, interactiveView := None, None, None, None, None, None;
    }

    /** The header assignments of `parse`: name, short description, intro, identifier and the root's attributes. */
    method SetHeader(h: Header)
      modifies this
      ensures Value() == old(Value()).(name := h.name, shortDescription := h.shortDescription, intro := h.intro,
                                       identifier := h.identifier, icon := h.icon, nodeType := h.nodeType,
                                       deprecated := h.deprecated)
    {
      name, shortDescription, intro, identifier := h.name, h.shortDescription, h.intro, h.identifier;
      icon, nodeType, deprecated := h.icon, h.nodeType, h.deprecated;
    }

    /** Options nested in tabs when there are tabs, the flat option list otherwise; the other field is left alone. */
    method ReadOptions(document: XNode)
      modifies this
      ensures |Tabs(document)| > 0 ==> Value() == old(Value()).(optionTabs := Some(TabsOf(Tabs(document))))
      ensures |Tabs(document)| == 0 ==> Value() == old(Value()).(options := Some(OptionsOf(FlatOptions(document))))
    {
      var tabs := Tabs(document);
      if |tabs| > 0 {
        var parsedTabs := ParseOptionTabs(tabs);
        optionTabs := Some(parsedTabs);
      } else {
        var flat := ParseOptions(FlatOptions(document));
        options := Some(flat);
      }
    }

    /** Both port lists, in-ports first; `error` is the exception of the first unreadable index. */
    method ReadPorts(document: XNode) returns (error: Option<string>)
      modifies this
      ensures error.None? <==> PortsOf(InPorts(document), true).Success? && PortsOf(OutPorts(document), false).Success?
      ensures error.None? ==> Value() == old(Value()).(inPorts := Some(PortsOf(InPorts(document), true).value),
                                                       outPorts := Some(PortsOf(OutPorts(document), false).value))
    {
      var parsedIn := ParsePorts(InPorts(document), true);
      if parsedIn.Failure? {
        return Some(parsedIn.error);
      }
      inPorts := Some(parsedIn.value);
      var parsedOut := ParsePorts(OutPorts(document), false);
      if parsedOut.Failure? {
        return Some(parsedOut.error);
      }
      outPorts := Some(parsedOut.value);
      error := None;
    }

    /** The views, set only when the document has some; `error` is the exception of the first unreadable index. */
    method ReadViews(document: XNode) returns (error: Option<string>)
      modifies this
      ensures error.None? <==> ViewsOf(Views(document)).Success?
      ensures error.None? && |Views(document)| > 0 ==> Value() == old(Value()).(views := Some(ViewsOf(Views(document)).value))
      ensures error.None? && |Views(document)| == 0 ==> Value() == old(Value())
    {
      var selection := Views(document);
      if |selection| > 0 {
        var viewObjects := ParseViews(selection);
        if viewObjects.Failure? {
          return Some(viewObjects.error);
        }
        views := Some(viewObjects.value);
      }
      error := None;
    }

    /** The interactive view, set only when the document has one. */
    method ReadInteractiveView(document: XNode)
      modifies this
      ensures |InteractiveViews(document)| > 0 ==>
                Value() == old(Value()).(interactiveView := InteractiveViewOf(InteractiveViews(document)))
      ensures |InteractiveViews(document)| == 0 ==> Value() == old(Value())
    {
      var selection := InteractiveViews(document);
      if |selection| > 0 {
        interactiveView := Some(NodeDocs.InteractiveView(SelectionAttr(selection, "name"),
                                                          TrimOrNull(SelectionHtml(selection))));
      }
    }
  }

  /** The tab loop of `parse`: one option tab per `tab` element, each with its own options. */
  method ParseOptionTabs(tabs: seq<XNode>) returns (optionTabs: seq<OptionTab>)
    ensures optionTabs == TabsOf(tabs)
  {
    optionTabs := [];
    for k := 0 to |tabs|
      invariant |optionTabs| == k
      invariant forall i :: 0 <= i < k ==> optionTabs[i] == TabOf(tabs[i])
    {
      var tab := tabs[k];
      var tabOptions := ParseOptions(Find([tab], "option"));
      optionTabs := optionTabs + [OptionTab(SelectionAttr([tab], "name"), tabOptions)];
    }
  }

  /** The view loop of `parse`: one view per `view` element, or the exception of the first bad index. */
  method ParseViews(views: seq<XNode>) returns (r: Result<seq<NodeDocs.View>>)
    ensures r.Failure? <==> ViewsOf(views).Failure?
    ensures r.Success? ==> r == ViewsOf(views)
  {
    var viewObjects: seq<NodeDocs.View> := [];
    for k := 0 to |views|
      invariant |viewObjects| == k
      invariant forall i :: 0 <= i < k ==> ViewOf(views[i]) == Success(viewObjects[i])
    {
      var viewObject := ReadView(views[k]);
      if viewObject.Failure? {
        ViewsOfBadIndex(views, k);
        return Failure(viewObject.error);
      }
      ViewsReadStep(views, viewObjects, viewObject.value);
      viewObjects := viewObjects + [viewObject.value];
    }
    ViewsOfAllRead(views, viewObjects);
    r := Success(viewObjects);
  }

  /** The body of the view loop in `parse`: one `View` object, or the exception of `Integer.valueOf`. */
  method ReadView(view: XNode) returns (r: Result<NodeDocs.View>)
    ensures r == ViewOf(view)
  {
    var index := ValueOf(SelectionAttr([view], "index"));
    if index.Failure? {
      return Failure(index.error);
    }
    r := Success(NodeDocs.View(index.value, SelectionAttr([view], "name"), TrimOrNull(SelectionHtml([view]))));
  }

  lemma ViewsOfBadIndex(views: seq<XNode>, k: nat)
    requires k < |views| && ValueOf(SelectionAttr([views[k]], "index")).Failure?
    ensures ViewsOf(views).Failure?
  {
    assert SomeBadIndex(views);
  }

  /** One more view read: the views read so far, then this one. */
  lemma ViewsReadStep(views: seq<XNode>, parsed: seq<NodeDocs.View>, v: NodeDocs.View)
    requires |parsed| < |views|
    requires forall i :: 0 <= i < |parsed| ==> ViewOf(views[i]) == Success(parsed[i])
    requires ViewOf(views[|parsed|]) == Success(v)
    ensures forall i :: 0 <= i < |parsed| + 1 ==> ViewOf(views[i]) == Success((parsed + [v])[i])
  {
    forall i | 0 <= i < |parsed| + 1 ensures ViewOf(views[i]) == Success((parsed + [v])[i]) {
      if i < |parsed| {
        assert (parsed + [v])[i] == parsed[i];
      }
    }
  }

  lemma ViewsOfAllRead(views: seq<XNode>, parsed: seq<NodeDocs.View>)
    requires |parsed| == |views|
    requires forall i :: 0 <= i < |views| ==> ViewOf(views[i]) == Success(parsed[i])
    ensures ViewsOf(views) == Success(parsed)
  {
    var expected := ViewsOf(views);
    assert expected.Success? by {
      forall i | 0 <= i < |views| ensures ValueOf(SelectionAttr([views[i]], "index")).Success? {
        assert ViewOf(views[i]).Success?;
      }
    }
    assert expected.value == parsed;
  }

  /**
   * `parse`: a fresh `NodeDoc` with its fields assigned in the order of the source, or the
   * exception of the first unreadable index.
   */
  method Parse(document: XNode, nodeIdentifier: Option<string>) returns (r: Result<NodeDoc>)
    ensures r.Failure? <==> ParseSpec(document, nodeIdentifier).Failure?
    ensures r.Success? ==> fresh(r.value) && r.value.Value() == ParseSpec(document, nodeIdentifier).value
  {
    var nodeDoc := new NodeDoc();
    nodeDoc.SetHeader(HeaderOf(document, nodeIdentifier));
    nodeDoc.ReadOptions(document);
    var error := nodeDoc.ReadPorts(document);
    if error.Some? {
      return Failure(error.value);
    }
    error := nodeDoc.ReadViews(document);
    if error.Some? {
      return Failure(error.value);
    }
    nodeDoc.ReadInteractiveView(document);
    r := Success(nodeDoc);
  }
}
