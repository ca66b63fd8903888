/**
 * The node documentation value objects of the `docs` package: the fields every
 * documentation object shares (`AbstractDoc`), a node's documentation (`NodeDoc`) and
 * the builder that collects it. A built document is a value; the builder holds its lists
 * as mutable `JavaList` objects, which it shares with whoever passed them in.
 */
module NodeDocs {
  import opened Wrappers
  import opened JavaLists

  /**
   * The shared fields of a built document. `identifier` and `shortDescription` are kept
   * for JSON compatibility and always mirror `id` and `description`.
   */
  datatype AbstractDoc = AbstractDoc(
    identifier: Option<string>,
    id: Option<string>,
    name: Option<string>,
    shortDescription: Option<string>,
    description: Option<string>,
    contributingPlugin: Option<string>,
    iconBase64: Option<string>,
    afterId: Option<string>)

  /** The `AbstractDoc` constructor: every field copied, the two compatibility fields mirrored. */
  function MakeAbstractDoc(id: Option<string>, name: Option<string>, description: Option<string>,
                           contributingPlugin: Option<string>, iconBase64: Option<string>,
                           afterId: Option<string>): (d: AbstractDoc)
    ensures d.identifier == d.id == id
    ensures d.shortDescription == d.description == description
    ensures d.name == name && d.contributingPlugin == contributingPlugin
    ensures d.iconBase64 == iconBase64 && d.afterId == afterId
  {
    AbstractDoc(id, id, name, description, description, contributingPlugin, iconBase64, afterId)
  }

  /** A dialog option; `optionType` is the Java field `type`. */
  datatype NodeOption = NodeOption(optionType: Option<string>, name: Option<string>, description: Option<string>,
                                   optional: bool)

  datatype OptionTab = OptionTab(name: Option<string>, options: Option<seq<NodeOption>>)

  /** The `OptionTab` constructor, which keeps a copy of the options list (null stays null). */
  function MakeOptionTab(name: Option<string>, options: JavaList?<NodeOption>): (t: OptionTab)
    reads options
    ensures t.name == name
    ensures t.options.None? <==> options == null
    ensures options != null ==> t.options == Some(options.elems)
  {
    OptionTab(name, CopyOrNull(options))
  }

  /** A port; `optional` is null for output ports. */
  datatype Port = Port(index: int, portObjectClass: Option<string>, name: Option<string>,
                       description: Option<string>, optional: Option<bool>)

  datatype View = View(index: int, name: Option<string>, description: Option<string>)

  datatype InteractiveView = InteractiveView(name: Option<string>, description: Option<string>)

  /** A built node document; `nodeType` is the Java field `type`. */
  datatype NodeDoc = NodeDoc(
    base: AbstractDoc,
    intro: Option<string>,
    optionTabs: Option<seq<OptionTab>>,
    options: Option<seq<NodeOption>>,
    inPorts: Option<seq<Port>>,
    outPorts: Option<seq<Port>>,
    inPortObjectClasses: Option<seq<Option<string>>>,
    outPortObjectClasses: Option<seq<Option<string>>>,
    views: Option<seq<View>>,
    nodeType: Option<string>,
    deprecated: bool,
    interactiveView: Option<InteractiveView>,
    streamable: bool)

  /** `convert`: the port object class of each port, in order; null for a null list. */
  function Convert(ports: Option<seq<Port>>): (r: Option<seq<Option<string>>>)
    ensures r.None? <==> ports.None?
    ensures ports.Some? ==> |r.value| == |ports.value|
    ensures ports.Some? ==> forall i :: 0 <= i < |ports.value| ==> r.value[i] == ports.value[i].portObjectClass
  {
    if ports.None? then None
    else Some(seq(|ports.value|, i requires 0 <= i < |ports.value| => ports.value[i].portObjectClass))
  }

  /** Everything a `NodeDocBuilder` holds; the lists are held by reference. */
  datatype NodeDocBuilderFields = NodeDocBuilderFields(
    id: Option<string>,
    name: Option<string>,
    description: Option<string>,
    contributingPlugin: Option<string>,
    iconBase64: Option<string>,
    afterId: Option<string>,
    intro: Option<string>,
    optionTabs: JavaList?<OptionTab>,
    options: JavaList?<NodeOption>,
    inPorts: JavaList?<Port>,
    outPorts: JavaList?<Port>,
    views: JavaList?<View>,
    nodeType: Option<string>,
    deprecated: bool,
    interactiveView: Option<InteractiveView>,
    streamable: bool)

  /**
   * `NodeDocBuilder` together with the `AbstractDocBuilder` fields it inherits. Setters
   * overwrite one field and return the builder itself; `build` copies every list.
   */
  class NodeDocBuilder {
    var id: Option<string>
    var name: Option<string>
    var description: Option<string>
    var contributingPlugin: Option<string>
    var iconBase64: Option<string>
    var afterId: Option<string>
    var intro: Option<string>
    var optionTabs: JavaList?<OptionTab>
    var options: JavaList?<NodeOption>
    var inPorts: JavaList?<Port>
    var outPorts: JavaList?<Port>
    var views: JavaList?<View>
    var nodeType: Option<string>
    var deprecated: bool
    var interactiveView: Option<InteractiveView>
    var streamable: bool

    function Fields(): NodeDocBuilderFields
      reads this
    {
      NodeDocBuilderFields(id, name, description, contributingPlugin, iconBase64, afterId, intro, optionTabs,
                           options, inPorts, outPorts, views, nodeType, deprecated, interactiveView, streamable)
    }

    /** `new NodeDocBuilder()`: every reference null, every flag false. */
    constructor ()
      ensures Fields() == NodeDocBuilderFields(None, None, None, None, None, None, None, null, null, null, null,
                                               null, None, false, None, false)
    {
      id, name, description, contributingPlugin, iconBase64, afterId, intro := None, None, None, None, None, None, None;
      optionTabs, options, inPorts, outPorts, views := null, null, null, null, null;
      nodeType, deprecated, interactiveView, streamable := None, false, None, false;
    }

    method SetId(id: Option<string>) returns (self: NodeDocBuilder)
      modifies this
      ensures self == this && Fields() == old(Fields()).(id := id)
    {
      this.id := id;
      self := this;
    }

    method SetName(name: Option<string>) returns (self: NodeDocBuilder)
      modifies this
      ensures self == this && Fields() == old(Fields()).(name := name)
    {
      this.name := name;
      self := this;
    }

    method SetDescription(description: Option<string>) returns (self: NodeDocBuilder)
      modifies this
      ensures self == this && Fields() == old(Fields()).(description := description)
    {
      this.description := description;
      self := this;
    }

    method SetContributingPlugin(contributingPlugin: Option<string>) returns (self: NodeDocBuilder)
      modifies this
      ensures self == this && Fields() == old(Fields()).(contributingPlugin := contributingPlugin)
    {
      this.contributingPlugin := contributingPlugin;
      self := this;
    }

    method SetIconBase64(iconBase64: Option<string>) returns (self: NodeDocBuilder)
      modifies this
      ensures self == this && Fields() == old(Fields()).(iconBase64 := iconBase64)
    {
      this.iconBase64 := iconBase64;
      self := this;
    }

    method SetAfterId(afterId: Option<string>) returns (self: NodeDocBuilder)
      modifies this
      ensures self == this && Fields() == old(Fields()).(afterId := afterId)
    {
      this.afterId := afterId;
      self := this;
    }

    method SetIntro(intro: Option<string>) returns (self: NodeDocBuilder)
      modifies this
      ensures self == this && Fields() == old(Fields()).(intro := intro)
    {
      this.intro := intro;
      self := this;
    }

    /** Keeps the list itself, not a copy: later additions to it show in the builder. */
    method SetOptionTabs(optionTabs: JavaList?<OptionTab>) returns (self: NodeDocBuilder)
      modifies this
      ensures self == this && Fields() == old(Fields()).(optionTabs := optionTabs)
    {
      this.optionTabs := optionTabs;
      self := this;
    }

    method SetOptions(options: JavaList?<NodeOption>) returns (self: NodeDocBuilder)
      modifies this
      ensures self == this && Fields() == old(Fields()).(options := options)
    {
      this.options := options;
      self := this;
    }

    method SetInPorts(inPorts: JavaList?<Port>) returns (self: NodeDocBuilder)
      modifies this
      ensures self == this && Fields() == old(Fields()).(inPorts := inPorts)
    {
      this.inPorts := inPorts;
      self := this;
    }

    method SetOutPorts(outPorts: JavaList?<Port>) returns (self: NodeDocBuilder)
      modifies this
      ensures self == this && Fields() == old(Fields()).(outPorts := outPorts)
    {
      this.outPorts := outPorts;
      self := this;
    }

    method SetViews(views: JavaList?<View>) returns (self: NodeDocBuilder)
      modifies this
      ensures self == this && Fields() == old(Fields()).(views := views)
    {
      this.views := views;
      self := this;
    }

    method SetType(nodeType: Option<string>) returns (self: NodeDocBuilder)
      modifies this
      ensures self == this && Fields() == old(Fields()).(nodeType := nodeType)
    {
      this.nodeType := nodeType;
      self := this;
    }

    method SetDeprecated(deprecated: bool) returns (self: NodeDocBuilder)
      modifies this
      ensures self == this && Fields() == old(Fields()).(deprecated := deprecated)
    {
      this.deprecated := deprecated;
      self := this;
    }

    method SetInteractiveView(interactiveView: Option<InteractiveView>) returns (self: NodeDocBuilder)
      modifies this
      ensures self == this && Fields() == old(Fields()).(interactiveView := interactiveView)
    {
      this.interactiveView := interactiveView;
      self := this;
    }

    method SetStreamable(streamable: bool) returns (self: NodeDocBuilder)
      modifies this
      ensures self == this && Fields() == old(Fields()).(streamable := streamable)
    {
      this.streamable := streamable;
      self := this;
    }

    /** `addOptionTab`: creates the list on first use, then appends; nothing else changes. */
    method AddOptionTab(optionTab: OptionTab) returns (self: NodeDocBuilder)
      modifies this, optionTabs
      ensures self == this
      ensures optionTabs != null && (old(optionTabs) == null ==> fresh(optionTabs))
      ensures old(optionTabs) != null ==> optionTabs == old(optionTabs)
      ensures optionTabs.elems == (if old(optionTabs) == null then [] else old(optionTabs.elems)) + [optionTab]
      ensures Fields() == old(Fields()).(optionTabs := optionTabs)
    {
      if optionTabs == null {
        optionTabs := new JavaList();
      }
      optionTabs.Add(optionTab);
      self := this;
    }

    /** `addView`: creates the list on first use, then appends; nothing else changes. */
    method AddView(view: View) returns (self: NodeDocBuilder)
      modifies this, views
      ensures self == this
      ensures views != null && (old(views) == null ==> fresh(views))
      ensures old(views) != null ==> views == old(views)
      ensures views.elems == (if old(views) == null then [] else old(views.elems)) + [view]
      ensures Fields() == old(Fields()).(views := views)
    {
      if views == null {
        views := new JavaList();
      }
      views.Add(view);
      self := this;
    }

    /**
     * `build()`: the `NodeDoc` constructor. The shared fields go through `AbstractDoc`, every
     * list is copied (null stays null) and the port lists are also converted to their classes.
     */
    function Build(): (d: NodeDoc)
      reads this, optionTabs, options, inPorts, outPorts, views
      ensures d.base == MakeAbstractDoc(id, name, description, contributingPlugin, iconBase64, afterId)
      ensures d.base.identifier == id && d.base.shortDescription == description
      ensures d.optionTabs == CopyOrNull(optionTabs) && d.options == CopyOrNull(options)
      ensures d.inPorts == CopyOrNull(inPorts) && d.outPorts == CopyOrNull(outPorts)
      ensures d.views == CopyOrNull(views)
      ensures d.inPortObjectClasses.None? <==> inPorts == null
      ensures inPorts != null ==>
                (|d.inPortObjectClasses.value| == |inPorts.elems| &&
                 forall i :: 0 <= i < |inPorts.elems| ==> d.inPortObjectClasses.value[i] == inPorts.elems[i].portObjectClass)
      ensures d.outPortObjectClasses.None? <==> outPorts == null
      ensures outPorts != null ==>
                (|d.outPortObjectClasses.value| == |outPorts.elems| &&
                 forall i :: 0 <= i < |outPorts.elems| ==> d.outPortObjectClasses.value[i] == outPorts.elems[i].portObjectClass)
      ensures d.intro == intro && d.nodeType == nodeType && d.deprecated == deprecated
      ensures d.interactiveView == interactiveView && d.streamable == streamable
    {
      NodeDoc(MakeAbstractDoc(id, name, description, contributingPlugin, iconBase64, afterId),
              intro,
              CopyOrNull(optionTabs),
              CopyOrNull(options),
              CopyOrNull(inPorts),
              CopyOrNull(outPorts),
              Convert(CopyOrNull(inPorts)),
              Convert(CopyOrNull(outPorts)),
              CopyOrNull(views),
              nodeType,
              deprecated,
              interactiveView,
              streamable)
    }
  }

  /**
   * A document built before an option tab is added does not see it: `build` took a copy,
   * while the builder's own list grows.
   */
  method BuildThenAddOptionTab(builder: NodeDocBuilder, tab: OptionTab) returns (before: NodeDoc, after: NodeDoc)
    modifies builder, builder.optionTabs
    ensures before == old(builder.Build())
    ensures after.optionTabs.Some? && after.optionTabs.value == before.optionTabs.GetOr([]) + [tab]
    ensures after.options == before.options && after.base == before.base
  {
    before := builder.Build();
    var self := builder.AddOptionTab(tab);
    after := builder.Build();
  }
}
