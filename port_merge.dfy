/**
 * Merging what a node's description documents about its ports with what its
 * implementation reports at run time (`mergePortInfo`, `getPorts` and
 * `mergeDynamicPortInfo` in JsonNodeDocuGenerator.java). The run time decides how many
 * ports there are and of which class; the documentation contributes names and descriptions.
 */
module PortMerge {
  import opened Wrappers
  import opened NodeDocs

  /** What the implementation reports for one port: its `PortObject` class and `isOptional()`. */
  datatype RuntimePortType = RuntimePortType(portObjectClass: string, optional: bool)

  /** The number of documented ports; a null list counts as none. */
  function DocCount(ports: Option<seq<Port>>): (n: nat)
    ensures ports.None? ==> n == 0
    ensures ports.Some? ==> n == |ports.value|
  {
    if ports.Some? then |ports.value| else 0
  }

  /** The merged port at position `index`: run-time class and optionality, documented text if any. */
  function MergedPort(ports: Option<seq<Port>>, portType: RuntimePortType, index: nat): (p: Port)
    ensures p.index == index && p.portObjectClass == Some(portType.portObjectClass)
    ensures p.optional == Some(portType.optional)
    ensures index < DocCount(ports) ==> p.name == ports.value[index].name && p.description == ports.value[index].description
    ensures index >= DocCount(ports) ==> p.name.None? && p.description.None?
  {
    if index < DocCount(ports) then
      Port(index, Some(portType.portObjectClass), ports.value[index].name, ports.value[index].description,
           Some(portType.optional))
    else
      Port(index, Some(portType.portObjectClass), None, None, Some(portType.optional))
  }

  /** The result of `mergePortInfo`: one port per run-time port, in run-time order. */
  function MergedPorts(ports: Option<seq<Port>>, portTypes: seq<RuntimePortType>): (r: seq<Port>)
    ensures |r| == |portTypes|
    ensures forall i :: 0 <= i < |portTypes| ==> r[i] == MergedPort(ports, portTypes[i], i)
  {
    seq(|portTypes|, i requires 0 <= i < |portTypes| => MergedPort(ports, portTypes[i], i))
  }

  /**
   * `mergePortInfo`: fills a new list in one pass over the run-time ports. `warn` is the
   * decision to log that documentation and implementation disagree on the port count;
   * it does not influence the result.
   */
  method MergePortInfo(ports: Option<seq<Port>>, portTypes: array<RuntimePortType>) returns (result: seq<Port>, warn: bool)
    ensures warn <==> DocCount(ports) != portTypes.Length
    ensures result == MergedPorts(ports, portTypes[..])
  {
    var numDocPorts := DocCount(ports);
    var numImplPorts := portTypes.Length;
    warn := numDocPorts != numImplPorts;
    result := [];
    for index := 0 to numImplPorts
      invariant |result| == index
      invariant forall i :: 0 <= i < index ==> result[i] == MergedPort(ports, portTypes[i], i)
    {
      var portType := portTypes[index];
      var name: Option<string> := None;
      var description: Option<string> := None;
      if numDocPorts > index {
        var portInfo := ports.value[index];
        name := portInfo.name;
        description := portInfo.description;
      }
      result := result + [Port(index, Some(portType.portObjectClass), name, description, Some(portType.optional))];
    }
  }

  /** Merging the merged list again with the same run-time ports changes nothing. */
  lemma MergePortsIdempotent(ports: Option<seq<Port>>, portTypes: seq<RuntimePortType>)
    ensures MergedPorts(Some(MergedPorts(ports, portTypes)), portTypes) == MergedPorts(ports, portTypes)
  {
    var once := MergedPorts(ports, portTypes);
    var twice := MergedPorts(Some(once), portTypes);
    forall i | 0 <= i < |portTypes| ensures twice[i] == once[i] {
      assert DocCount(Some(once)) == |portTypes|;
    }
  }

  /**
   * The port classes a built node document lists for a merged port list are the run-time
   * classes, in order.
   */
  lemma MergedPortClasses(ports: Option<seq<Port>>, portTypes: seq<RuntimePortType>)
    ensures Convert(Some(MergedPorts(ports, portTypes))) ==
            Some(seq(|portTypes|, i requires 0 <= i < |portTypes| => Some(portTypes[i].portObjectClass)))
  {
    var merged := MergedPorts(ports, portTypes);
    var classes := Convert(Some(merged)).value;
    var expected := seq(|portTypes|, i requires 0 <= i < |portTypes| => Some(portTypes[i].portObjectClass));
    forall i | 0 <= i < |portTypes| ensures classes[i] == expected[i] {
      assert merged[i] == MergedPort(ports, portTypes[i], i);
    }
    assert classes == expected;
  }

  /**
   * `getPorts`: the node's port list without the implicit flow-variable port at position 0,
   * so run-time port `i` of the result is node port `i + 1`.
   */
  method GetPorts(nodePorts: seq<RuntimePortType>) returns (portTypes: array<RuntimePortType>)
    requires |nodePorts| >= 1
    ensures fresh(portTypes)
    ensures portTypes.Length == |nodePorts| - 1
    ensures forall i :: 0 <= i < portTypes.Length ==> portTypes[i] == nodePorts[i + 1]
  {
    var nrPorts := |nodePorts|;
    portTypes := new RuntimePortType[nrPorts - 1](_ => RuntimePortType("", false));
    for index := 1 to nrPorts
      invariant forall i :: 0 <= i < index - 1 ==> portTypes[i] == nodePorts[i + 1]
    {
      portTypes[index - 1] := nodePorts[index];
    }
  }

  /**
   * A group of dynamic ports. Its class is not part of this model: the shape follows the
   * constructor calls `new DynamicPortGroup(insertBefore, name, groupIdentifier, description,
   * portObjectClasses)`; `insertBefore` is kept as the attribute text.
   */
  datatype DynamicPortGroup = DynamicPortGroup(insertBefore: Option<string>, name: Option<string>,
                                               groupIdentifier: string, description: Option<string>,
                                               portObjectClasses: seq<string>)

  /** `stream().filter(same groupIdentifier).findFirst()`: the position of the first match. */
  function FirstWithIdentifier(groups: seq<DynamicPortGroup>, groupIdentifier: string): (r: Option<nat>)
    ensures r.Some? ==> r.value < |groups| && groups[r.value].groupIdentifier == groupIdentifier
    ensures r.Some? ==> forall j :: 0 <= j < r.value ==> groups[j].groupIdentifier != groupIdentifier
    ensures r.None? <==> forall j :: 0 <= j < |groups| ==> groups[j].groupIdentifier != groupIdentifier
  {
    if groups == [] then None
    else if groups[0].groupIdentifier == groupIdentifier then Some(0)
    else
      match FirstWithIdentifier(groups[1..], groupIdentifier)
      case None => None
      case Some(k) => Some(k + 1)
  }

  /**
   * The merged form of one run-time group: the first documented group with its identifier
   * supplies position, name and description, the run-time group its classes; without a
   * documented group the run-time group is kept as it is.
   */
  function MergedGroup(docPorts: seq<DynamicPortGroup>, implPort: DynamicPortGroup): (g: DynamicPortGroup)
    ensures g.groupIdentifier == implPort.groupIdentifier && g.portObjectClasses == implPort.portObjectClasses
  {
    match FirstWithIdentifier(docPorts, implPort.groupIdentifier)
    case None => implPort
    case Some(k) =>
      var docPort := docPorts[k];
      DynamicPortGroup(docPort.insertBefore, docPort.name, docPort.groupIdentifier, docPort.description,
                       implPort.portObjectClasses)
  }

  function MergedGroups(docPorts: seq<DynamicPortGroup>, implPorts: seq<DynamicPortGroup>): (r: seq<DynamicPortGroup>)
    ensures |r| == |implPorts|
    ensures forall i :: 0 <= i < |implPorts| ==> r[i] == MergedGroup(docPorts, implPorts[i])
  {
    seq(|implPorts|, i requires 0 <= i < |implPorts| => MergedGroup(docPorts, implPorts[i]))
  }

  /** The identifiers of the run-time groups no documented group has, in run-time order. */
  function Undocumented(docPorts: seq<DynamicPortGroup>, implPorts: seq<DynamicPortGroup>): seq<string> {
    if implPorts == [] then []
    else
      var last := implPorts[|implPorts| - 1];
      Undocumented(docPorts, implPorts[..|implPorts| - 1]) +
      (if FirstWithIdentifier(docPorts, last.groupIdentifier).None? then [last.groupIdentifier] else [])
  }

  /**
   * `mergeDynamicPortInfo`: one output group per run-time group, in run-time order. `warn`
   * is the decision to log a count mismatch and `undocumented` the identifiers the method
   * warns about one by one; neither influences the result.
   */
  method MergeDynamicPortInfo(docPorts: seq<DynamicPortGroup>, implPorts: seq<DynamicPortGroup>)
    returns (merged: seq<DynamicPortGroup>, warn: bool, undocumented: seq<string>)
    ensures warn <==> |docPorts| != |implPorts|
    ensures merged == MergedGroups(docPorts, implPorts)
    ensures undocumented == Undocumented(docPorts, implPorts)
  {
    warn := |docPorts| != |implPorts|;
    merged := [];
    undocumented := [];
    for n := 0 to |implPorts|
      invariant |merged| == n
      invariant forall i :: 0 <= i < n ==> merged[i] == MergedGroup(docPorts, implPorts[i])
      invariant undocumented == Undocumented(docPorts, implPorts[..n])
    {
      assert implPorts[..n + 1][..n] == implPorts[..n];
      var implPort := implPorts[n];
      var optionalDocPort := FirstWithIdentifier(docPorts, implPort.groupIdentifier);
      if optionalDocPort.Some? {
        var docPort := docPorts[optionalDocPort.value];
        merged := merged + [DynamicPortGroup(docPort.insertBefore, docPort.name, docPort.groupIdentifier,
                                             docPort.description, implPort.portObjectClasses)];
      } else {
        undocumented := undocumented + [implPort.groupIdentifier];
        merged := merged + [implPort];
      }
    }
    assert implPorts[..|implPorts|] == implPorts;
  }

  /** A warning names exactly an identifier some run-time group has and no documented group has. */
  lemma {:induction false} UndocumentedExact(docPorts: seq<DynamicPortGroup>, implPorts: seq<DynamicPortGroup>, id: string)
    ensures id in Undocumented(docPorts, implPorts) <==>
            (exists i :: 0 <= i < |implPorts| && implPorts[i].groupIdentifier == id) &&
            forall j :: 0 <= j < |docPorts| ==> docPorts[j].groupIdentifier != id
  {
    if implPorts != [] {
      var init, last := implPorts[..|implPorts| - 1], implPorts[|implPorts| - 1];
      UndocumentedExact(docPorts, init, id);
      if exists i :: 0 <= i < |init| && init[i].groupIdentifier == id {
        var i :| 0 <= i < |init| && init[i].groupIdentifier == id;
        assert implPorts[i] == init[i];
      }
      if exists i :: 0 <= i < |implPorts| && implPorts[i].groupIdentifier == id {
        var i :| 0 <= i < |implPorts| && implPorts[i].groupIdentifier == id;
        if i < |init| {
          assert init[i] == implPorts[i];
        }
      }
    }
  }

  /**
   * What a merged group holds: the run-time identifier and classes always; the text of
   * the first documented group with that identifier when there is one; otherwise the
   * run-time group unchanged. Documented groups without a run-time counterpart are dropped.
   */
  lemma MergedGroupsContents(docPorts: seq<DynamicPortGroup>, implPorts: seq<DynamicPortGroup>, i: nat)
    requires i < |implPorts|
    ensures MergedGroups(docPorts, implPorts)[i].groupIdentifier == implPorts[i].groupIdentifier
    ensures MergedGroups(docPorts, implPorts)[i].portObjectClasses == implPorts[i].portObjectClasses
    ensures (forall j :: 0 <= j < |docPorts| ==> docPorts[j].groupIdentifier != implPorts[i].groupIdentifier) ==>
              MergedGroups(docPorts, implPorts)[i] == implPorts[i]
    ensures forall j :: 0 <= j < |docPorts| && docPorts[j].groupIdentifier == implPorts[i].groupIdentifier &&
                        (forall k :: 0 <= k < j ==> docPorts[k].groupIdentifier != implPorts[i].groupIdentifier) ==>
              MergedGroups(docPorts, implPorts)[i].name == docPorts[j].name &&
              MergedGroups(docPorts, implPorts)[i].description == docPorts[j].description &&
              MergedGroups(docPorts, implPorts)[i].insertBefore == docPorts[j].insertBefore
  {
    var id := implPorts[i].groupIdentifier;
    var first := FirstWithIdentifier(docPorts, id);
    forall j | 0 <= j < |docPorts| && docPorts[j].groupIdentifier == id &&
               (forall k :: 0 <= k < j ==> docPorts[k].groupIdentifier != id)
      ensures first == Some(j)
    {
      assert first.Some?;
    }
  }

  /** Merging the merged groups again with the same documentation changes nothing. */
  lemma MergeGroupsIdempotent(docPorts: seq<DynamicPortGroup>, implPorts: seq<DynamicPortGroup>)
    ensures MergedGroups(docPorts, MergedGroups(docPorts, implPorts)) == MergedGroups(docPorts, implPorts)
  {
    var once := MergedGroups(docPorts, implPorts);
    var twice := MergedGroups(docPorts, once);
    forall i | 0 <= i < |implPorts| ensures twice[i] == once[i] {
      assert once[i].groupIdentifier == implPorts[i].groupIdentifier;
    }
  }
}
