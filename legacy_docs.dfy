/**
 * The earlier node documentation objects (NodeDoc.java and AbstractDoc.java next to the
 * earlier generator). They differ from the `docs` package in three ways: an option has no
 * type, a port has no class, and an `OptionTab` keeps the options list it is given rather
 * than a copy, so a built document still shares that list with whoever made the tab.
 */
module LegacyDocs {
  import opened Wrappers
  import opened JavaLists
  import NodeDocs

  datatype LegacyOption = LegacyOption(name: Option<string>, description: Option<string>, optional: bool)

  /** A port; `optional` is null for output ports. */
  datatype LegacyPort = LegacyPort(index: int, name: Option<string>, description: Option<string>,
                                   optional: Option<bool>)

  /** An option tab holding its options list by reference. */
  datatype OptionTab = OptionTab(name: Option<string>, options: JavaList?<LegacyOption>)

  /** A built node document; `nodeType` is the Java field `type`. */
  datatype LegacyNodeDoc = LegacyNodeDoc(
    base: NodeDocs.AbstractDoc,
    intro: Option<string>,
    optionTabs: Option<seq<OptionTab>>,
    options: Option<seq<LegacyOption>>,
    inPorts: Option<seq<LegacyPort>>,
    outPorts: Option<seq<LegacyPort>>,
    views: Option<seq<NodeDocs.View>>,
    nodeType: Option<string>,
    deprecated: bool,
    interactiveView: Option<NodeDocs.InteractiveView>,
    streamable: bool)

  /** Everything the earlier `NodeDocBuilder` holds; the lists are held by reference. */
  datatype LegacyBuilderFields = LegacyBuilderFields(
    id: Option<string>,
    name: Option<string>,
    description: Option<string>,
    contributingPlugin: Option<string>,
    iconBase64: Option<string>,
    afterId: Option<string>,
    intro: Option<string>,
    optionTabs: JavaList?<OptionTab>,
    options: JavaList?<LegacyOption>,
    inPorts: JavaList?<LegacyPort>,
    outPorts: JavaList?<LegacyPort>,
    views: JavaList?<NodeDocs.View>,
    nodeType: Option<string>,
    deprecated: bool,
    interactiveView: Option<NodeDocs.InteractiveView>,
    streamable: bool)

  /**
   * The earlier `NodeDocBuilder` with the `AbstractDocBuilder` fields it inherits. Setters
   * overwrite one field and return the builder itself.
   */
  class NodeDocBuilder {
    var id: Option<string>
    var name: Option<string>
    var description: Option<string>
    var contributingPlugin: Option<string>
    var iconBase64: Option<string>
    var afterId: Option<string>
    var intro: Option<string>
    var optionTabs: JavaList?<OptionTab>
    var options: JavaList?<LegacyOption>
    var inPorts: JavaList?<LegacyPort>
    var outPorts: JavaList?<LegacyPort>
    var views: JavaList?<NodeDocs.View>
    var nodeType: Option<string>
    var deprecated: bool
    var interactiveView: Option<NodeDocs.InteractiveView>
    var streamable: bool

    function Fields(): LegacyBuilderFields
      reads this
    {
      LegacyBuilderFields(id, name, description, contributingPlugin, iconBase64, afterId, intro, optionTabs,
                          options, inPorts, outPorts, views, nodeType, deprecated, interactiveView, streamable)
    }

    /** `new NodeDocBuilder()`: every reference null, every flag false. */
    constructor ()
      ensures Fields() == LegacyBuilderFields(None, None, None, None, None, None, None, null, null, null, null,
                                              null, None, false, None, false)
    {
      id, name, description, contributingPlugin, iconBase64, afterId, intro := None, None, None, None, None, None, None;
      optionTabs, options, inPorts, outPorts, views := null, null, null, null, null;
      nodeType, deprecated, interactiveView, streamable := None, false, None, false;
    }

    method SetId(id: Option<string>) returns (self: NodeDocBuilder)
      modifies this
      ensures self == this && Fields() == old(Fields()).(id := id)
    {
      this.id := id;
      self := this;
    }

    method SetName(name: Option<string>) returns (self: NodeDocBuilder)
      modifies this
      ensures self == this && Fields() == old(Fields()).(name := name)
    {
      this.name := name;
      self := this;
    }

    method SetDescription(description: Option<string>) returns (self: NodeDocBuilder)
      modifies this
      ensures self == this && Fields() == old(Fields()).(description := description)
    {
      this.description := description;
      self := this;
    }

    method SetContributingPlugin(contributingPlugin: Option<string>) returns (self: NodeDocBuilder)
      modifies this
      ensures self == this && Fields() == old(Fields()).(contributingPlugin := contributingPlugin)
    {
      this.contributingPlugin := contributingPlugin;
      self := this;
    }

    method SetIconBase64(iconBase64: Option<string>) returns (self: NodeDocBuilder)
      modifies this
      ensures self == this && Fields() == old(Fields()).(iconBase64 := iconBase64)
    {
      this.iconBase64 := iconBase64;
      self := this;
    }

    method SetAfterId(afterId: Option<string>) returns (self: NodeDocBuilder)
      modifies this
      ensures self == this && Fields() == old(Fields()).(afterId := afterId)
    {
      this.afterId := afterId;
      self := this;
    }

    method SetIntro(intro: Option<string>) returns (self: NodeDocBuilder)
      modifies this
      ensures self == this && Fields() == old(Fields()).(intro := intro)
    {
      this.intro := intro;
      self := this;
    }

    method SetOptionTabs(optionTabs: JavaList?<OptionTab>) returns (self: NodeDocBuilder)
      modifies this
      ensures self == this && Fields() == old(Fields()).(optionTabs := optionTabs)
    {
      this.optionTabs := optionTabs;
      self := this;
    }

    method SetOptions(options: JavaList?<LegacyOption>) returns (self: NodeDocBuilder)
      modifies this
      ensures self == this && Fields() == old(Fields()).(options := options)
    {
      this.options := options;
      self := this;
    }

    method SetInPorts(inPorts: JavaList?<LegacyPort>) returns (self: NodeDocBuilder)
      modifies this
      ensures self == this && Fields() == old(Fields()).(inPorts := inPorts)
    {
      this.inPorts := inPorts;
      self := this;
    }

    method SetOutPorts(outPorts: JavaList?<LegacyPort>) returns (self: NodeDocBuilder)
      modifies this
      ensures self == this && Fields() == old(Fields()).(outPorts := outPorts)
    {
      this.outPorts := outPorts;
      self := this;
    }

    method SetViews(views: JavaList?<NodeDocs.View>) returns (self: NodeDocBuilder)
      modifies this
      ensures self == this && Fields() == old(Fields()).(views := views)
    {
      this.views := views;
      self := this;
    }

    method SetType(nodeType: Option<string>) returns (self: NodeDocBuilder)
      modifies this
      ensures self == this && Fields() == old(Fields()).(nodeType := nodeType)
    {
      this.nodeType := nodeType;
      self := this;
    }

    method SetDeprecated(deprecated: bool) returns (self: NodeDocBuilder)
      modifies this
      ensures self == this && Fields() == old(Fields()).(deprecated := deprecated)
    {
      this.deprecated := deprecated;
      self := this;
    }

    method SetInteractiveView(interactiveView: Option<NodeDocs.InteractiveView>) returns (self: NodeDocBuilder)
      modifies this
      ensures self == this && Fields() == old(Fields()).(interactiveView := interactiveView)
    {
      this.interactiveView := interactiveView;
      self := this;
    }

    method SetStreamable(streamable: bool) returns (self: NodeDocBuilder)
      modifies this
      ensures self == this && Fields() == old(Fields()).(streamable := streamable)
    {
      this.streamable := streamable;
      self := this;
    }

    /** `addOptionTab`: creates the list on first use, then appends; no other field changes. */
    method AddOptionTab(optionTab: OptionTab) returns (self: NodeDocBuilder)
      modifies this, optionTabs
      ensures self == this
      ensures optionTabs != null && (old(optionTabs) == null ==> fresh(optionTabs))
      ensures old(optionTabs) != null ==> optionTabs == old(optionTabs)
      ensures optionTabs.elems == (if old(optionTabs) == null then [] else old(optionTabs.elems)) + [optionTab]
      ensures Fields() == old(Fields()).(optionTabs := optionTabs)
    {
      if optionTabs == null {
        optionTabs := new JavaList();
      }
      optionTabs.Add(optionTab);
      self := this;
    }

    /** `addView`: creates the list on first use, then appends; no other field changes. */
    method AddView(view: NodeDocs.View) returns (self: NodeDocBuilder)
      modifies this, views
      ensures self == this
      ensures views != null && (old(views) == null ==> fresh(views))
      ensures old(views) != null ==> views == old(views)
      ensures views.elems == (if old(views) == null then [] else old(views.elems)) + [view]
      ensures Fields() == old(Fields()).(views := views)
    {
      if views == null {
        views := new JavaList();
      }
      views.Add(view);
      self := this;
    }

    /**
     * `build()`: the earlier `NodeDoc` constructor. Shared fields go through `AbstractDoc`;
     * each list is copied (null stays null), but the tabs in the copy are the same tabs.
     */
    function Build(): (d: LegacyNodeDoc)
      reads this, optionTabs, options, inPorts, outPorts, views
      ensures d.base == NodeDocs.MakeAbstractDoc(id, name, description, contributingPlugin, iconBase64, afterId)
      ensures d.base.identifier == id && d.base.shortDescription == description
      ensures d.optionTabs.None? <==> optionTabs == null
      ensures optionTabs != null ==> d.optionTabs.value == optionTabs.elems
      ensures d.options == CopyOrNull(options) && d.views == CopyOrNull(views)
      ensures d.inPorts == CopyOrNull(inPorts) && d.outPorts == CopyOrNull(outPorts)
      ensures d.intro == intro && d.nodeType == nodeType && d.deprecated == deprecated
      ensures d.interactiveView == interactiveView && d.streamable == streamable
    {
      LegacyNodeDoc(NodeDocs.MakeAbstractDoc(id, name, description, contributingPlugin, iconBase64, afterId),
                    intro,
                    CopyOrNull(optionTabs),
                    CopyOrNull(options),
                    CopyOrNull(inPorts),
                    CopyOrNull(outPorts),
                    CopyOrNull(views),
                    nodeType,
                    deprecated,
                    interactiveView,
                    streamable)
    }
  }

  /**
   * Because a tab holds its options list by reference, an option added to that list after
   * `build` is visible through the built document.
   */
  method OptionAddedAfterBuild(builder: NodeDocBuilder, tabOptions: JavaList<LegacyOption>, option: LegacyOption)
    returns (d: LegacyNodeDoc)
    modifies builder, builder.optionTabs, tabOptions
    ensures d.optionTabs.Some? && |d.optionTabs.value| >= 1
    ensures d.optionTabs.value[|d.optionTabs.value| - 1].options == tabOptions
    ensures tabOptions.elems == old(tabOptions.elems) + [option]
  {
    var self := builder.AddOptionTab(OptionTab(None, tabOptions));
    d := builder.Build();
    tabOptions.Add(option);
  }
}
