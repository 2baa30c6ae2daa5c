/** The MachineDeployment controller's reconcile step (pkg/controller/controller.go): resolve
    the template, instance type and region, build an AWS client, look the instance type up,
    and write the capacity annotations and the architecture label. */
module Controller {
  import opened Wrappers
  import opened Errors
  import opened Text
  import opened StringOrder
  import opened Labels
  import opened Kube
  import opened ProviderSpec
  import AwsClient

  const CpuKey: string := "machine.openshift.io/vCPU"
  const MemoryKey: string := "machine.openshift.io/memoryMb"
  const GpuKey: string := "machine.openshift.io/GPU"
  const LabelsKey: string := "capacity.cluster-autoscaler.kubernetes.io/labels"
  const ArchLabelKey: string := "kubernetes.io/arch"

  /** The annotations the controller owns; it writes these four and no others. */
  predicate Owned(key: string) {
    key == CpuKey || key == MemoryKey || key == GpuKey || key == LabelsKey
  }

  /** The CPU architectures the instance-type cache reports. */
  datatype Arch = Amd64 | Arm64 {
    function Name(): string {
      match this
      case Amd64 => "amd64"
      case Arm64 => "arm64"
    }
  }

  /** How the instance-type cache maps an EC2 architecture name to a label value: arm64 stays
      arm64 and everything else, x86_64 included, becomes amd64. */
  function NormalizeArchitecture(architecture: string): (a: Arch)
    ensures a == Arm64 <==> architecture == "arm64"
  {
    if architecture == "arm64" then Arm64 else Amd64
  }

  /** What the instance-type cache knows about an instance type. */
  datatype InstanceTypeInfo = InstanceTypeInfo(vcpu: int, memoryMb: int, gpu: int, cpuArchitecture: Arch)

  /** The reconciler's collaborators: the objects its client can read, the injected AWS client
      builder (given the namespace and region), and the instance-type cache, keyed by region
      and instance type. */
  datatype Reconciler = Reconciler(
    store: Store,
    buildClient: (string, string) -> Result<AwsClient.AwsClient, Error>,
    instanceTypes: map<(string, string), InstanceTypeInfo>)

  /** What a reconcile does: fail with an error, give up quietly because the instance type is
      unknown, or write the annotations for an instance type. */
  datatype Step = Fail(error: Error) | UnknownInstanceType | Write(info: InstanceTypeInfo)

  /** The decision a reconcile takes for a MachineDeployment, checking its inputs in the order
      the controller does. */
  function Plan(r: Reconciler, md: MachineDeployment): (s: Step)
    ensures var template := ResolveAWSMachineTemplate(r.store, md);
            var region := ResolveRegion(r.store, md);
            && (template.Failure? ==> s == Fail(template.error))
            && (template.Success? && template.value.instanceType == "" ==> s == Fail(InstanceTypeEmpty))
            && (template.Success? && template.value.instanceType != "" && region.Failure? ==>
                  s == Fail(region.error))
            && (template.Success? && template.value.instanceType != "" && region.Success? ==>
                  var client := r.buildClient(md.namespace, region.value);
                  var key := (region.value, template.value.instanceType);
                  && (client.Failure? ==> s == Fail(ClientCreationFailed(client.error)))
                  && (client.Success? && key !in r.instanceTypes ==> s == UnknownInstanceType)
                  && (client.Success? && key in r.instanceTypes ==> s == Write(r.instanceTypes[key])))
  {
    match ResolveAWSMachineTemplate(r.store, md)
    case Failure(e) => Fail(e)
    case Success(template) =>
      match ExtractInstanceType(Some(template))
      case Failure(e) => Fail(e)
      case Success(instanceType) =>
        match ResolveRegion(r.store, md)
        case Failure(e) => Fail(e)
        case Success(region) =>
          match r.buildClient(md.namespace, region)
          case Failure(e) => Fail(ClientCreationFailed(e))
          case Success(_) =>
            if (region, instanceType) in r.instanceTypes then Write(r.instanceTypes[(region, instanceType)])
            else UnknownInstanceType
  }

  /** The labels already in the annotations: the parsed labels annotation when it is present
      and non-empty, otherwise none. */
  function ExistingLabels(annotations: map<string, string>): (labels: map<string, string>)
    ensures LabelsKey !in annotations ==> labels == map[]
    ensures LabelsKey in annotations ==> labels == ParsedLabels(annotations[LabelsKey])
  {
    assert ParsedLabels("") == map[] by { assert Split("", ',') == [""]; }
    if LabelsKey in annotations && annotations[LabelsKey] != "" then ParsedLabels(annotations[LabelsKey])
    else map[]
  }

  /** The existing labels with the architecture label set to the instance type's. */
  function MergedLabels(annotations: map<string, string>, info: InstanceTypeInfo): (labels: map<string, string>)
    ensures labels.Keys == ExistingLabels(annotations).Keys + {ArchLabelKey}
    ensures labels[ArchLabelKey] == info.cpuArchitecture.Name()
    ensures forall k :: k in ExistingLabels(annotations) && k != ArchLabelKey ==>
              labels[k] == ExistingLabels(annotations)[k]
  {
    ExistingLabels(annotations)[ArchLabelKey := info.cpuArchitecture.Name()]
  }

  /** The annotations after a successful reconcile: the three counts in base 10 and the
      merged labels, written in sorted order. */
  ghost function Annotated(annotations: map<string, string>, info: InstanceTypeInfo): (a: map<string, string>)
    ensures CpuKey in a && a[CpuKey] == FormatInt(info.vcpu)
    ensures MemoryKey in a && a[MemoryKey] == FormatInt(info.memoryMb)
    ensures GpuKey in a && a[GpuKey] == FormatInt(info.gpu)
    ensures LabelsKey in a && a[LabelsKey] == SerializedLabels(MergedLabels(annotations, info))
  {
    annotations[CpuKey := FormatInt(info.vcpu)]
               [MemoryKey := FormatInt(info.memoryMb)]
               [GpuKey := FormatInt(info.gpu)]
               [LabelsKey := SerializedLabels(MergedLabels(annotations, info))]
  }

  /** A MachineDeployment being reconciled. Only its annotations change; `None` is a nil
      annotation map. */
  class DeploymentObject {
    const namespace: string
    const name: string
    const clusterName: string
    const infrastructureRef: ObjectReference
    var annotations: Option<map<string, string>>

    constructor(namespace: string, name: string, clusterName: string, infrastructureRef: ObjectReference,
                annotations: Option<map<string, string>>)
      ensures this.namespace == namespace && this.name == name && this.clusterName == clusterName
      ensures this.infrastructureRef == infrastructureRef && this.annotations == annotations
    {
      this.namespace := namespace;
      this.name := name;
      this.clusterName := clusterName;
      this.infrastructureRef := infrastructureRef;
      this.annotations := annotations;
    }

    /** The object as the resolvers read it; a nil annotation map reads as an empty one. */
    function View(): MachineDeployment
      reads this
    {
      MachineDeployment(namespace, name, clusterName, infrastructureRef, annotations.GetOr(map[]))
    }
  }

  /** `reconcile`: on failure or an unknown instance type the annotations are left untouched;
      otherwise a nil annotation map is created and the four owned annotations are written. */
  method Reconcile(r: Reconciler, md: DeploymentObject) returns (err: Option<Error>)
    modifies md
    ensures var s := Plan(r, old(md.View()));
            && (s.Fail? ==> err == Some(s.error))
            && (!s.Fail? ==> err == None)
            && (s.Write? ==> md.annotations == Some(Annotated(old(md.annotations).GetOr(map[]), s.info)))
            && (!s.Write? ==> md.annotations == old(md.annotations))
  {
    var view := md.View();
    var template := ResolveAWSMachineTemplate(r.store, view);
    if template.Failure? {
      return Some(template.error);
    }
    var instanceType := ExtractInstanceType(Some(template.value));
    if instanceType.Failure? {
      return Some(instanceType.error);
    }
    var region := ResolveRegion(r.store, view);
    if region.Failure? {
      return Some(region.error);
    }
    var client := r.buildClient(md.namespace, region.value);
    if client.Failure? {
      return Some(ClientCreationFailed(client.error));
    }
    if (region.value, instanceType.value) !in r.instanceTypes {
      return None;
    }
    var info := r.instanceTypes[(region.value, instanceType.value)];
    ghost var before := md.annotations.GetOr(map[]);

    if md.annotations.None? {
      md.annotations := Some(map[]);
    }
    md.annotations := Some(md.annotations.value[CpuKey := FormatInt(info.vcpu)]);
    md.annotations := Some(md.annotations.value[MemoryKey := FormatInt(info.memoryMb)]);
    md.annotations := Some(md.annotations.value[GpuKey := FormatInt(info.gpu)]);

    var labelsMap: map<string, string> := map[];
    var current := md.annotations.value;
    if LabelsKey in current && current[LabelsKey] != "" {
      labelsMap := ParseLabels(current[LabelsKey]);
      ParsedLabelsWellFormed(current[LabelsKey]);
    }
    assert labelsMap == ExistingLabels(before);
    labelsMap := labelsMap[ArchLabelKey := info.cpuArchitecture.Name()];
    ArchLabelWellFormed(info.cpuArchitecture);
    var labels := SerializeLabels(labelsMap);
    md.annotations := Some(md.annotations.value[LabelsKey := labels]);
    return None;
  }

  /** The architecture label is a well-formed label whatever the architecture. */
  lemma ArchLabelWellFormed(arch: Arch)
    ensures WellFormedKey(ArchLabelKey) && WellFormedValue(arch.Name())
  {
    assert forall i :: 0 <= i < |ArchLabelKey| ==> ArchLabelKey[i] != '=' && ArchLabelKey[i] != ',';
  }

  /** The merged labels are well-formed, so they survive being written and read back. */
  lemma MergedLabelsWellFormed(annotations: map<string, string>, info: InstanceTypeInfo)
    ensures WellFormed(MergedLabels(annotations, info))
  {
    if LabelsKey in annotations && annotations[LabelsKey] != "" {
      ParsedLabelsWellFormed(annotations[LabelsKey]);
    }
    ArchLabelWellFormed(info.cpuArchitecture);
  }

  /** The three counts are written in base 10 and read back as the instance type's values. */
  lemma AnnotatedCounts(annotations: map<string, string>, info: InstanceTypeInfo)
    ensures var a := Annotated(annotations, info);
            && CpuKey in a && a[CpuKey] == FormatInt(info.vcpu) && ParseInt(a[CpuKey]) == info.vcpu
            && MemoryKey in a && a[MemoryKey] == FormatInt(info.memoryMb) && ParseInt(a[MemoryKey]) == info.memoryMb
            && GpuKey in a && a[GpuKey] == FormatInt(info.gpu) && ParseInt(a[GpuKey]) == info.gpu
  {
    var a := Annotated(annotations, info);
    assert a[CpuKey] == FormatInt(info.vcpu);
    assert a[MemoryKey] == FormatInt(info.memoryMb);
    assert a[GpuKey] == FormatInt(info.gpu);
    ParseFormatInt(info.vcpu);
    ParseFormatInt(info.memoryMb);
    ParseFormatInt(info.gpu);
  }

  /** Annotations the controller does not own are kept exactly, and nothing else is added. */
  lemma AnnotatedKeepsOthers(annotations: map<string, string>, info: InstanceTypeInfo)
    ensures var a := Annotated(annotations, info);
            && (forall k :: k in a <==> k in annotations || Owned(k))
            && (forall k :: k in annotations && !Owned(k) ==> a[k] == annotations[k])
  {
    WriteOwned(annotations, FormatInt(info.vcpu), FormatInt(info.memoryMb), FormatInt(info.gpu),
               SerializedLabels(MergedLabels(annotations, info)));
  }

  /** Writing the four owned keys adds them and touches nothing else. */
  lemma WriteOwned(annotations: map<string, string>, cpu: string, memory: string, gpu: string, labels: string)
    ensures var a := annotations[CpuKey := cpu][MemoryKey := memory][GpuKey := gpu][LabelsKey := labels];
            && (forall k :: k in a <==> k in annotations || Owned(k))
            && (forall k :: k in annotations && !Owned(k) ==> a[k] == annotations[k])
  {
  }

  /** Reading back the written labels gives every existing label except the architecture
      label with its value, and the architecture label with the instance type's value. */
  lemma AnnotatedLabels(annotations: map<string, string>, info: InstanceTypeInfo)
    ensures var labels := Annotated(annotations, info)[LabelsKey];
            && ParsedLabels(labels) == MergedLabels(annotations, info)
            && (forall k :: k in ParsedLabels(labels) <==> k in ExistingLabels(annotations) || k == ArchLabelKey)
            && (forall k :: k in ExistingLabels(annotations) && k != ArchLabelKey ==>
                  ParsedLabels(labels)[k] == ExistingLabels(annotations)[k])
            && ParsedLabels(labels)[ArchLabelKey] == info.cpuArchitecture.Name()
  {
    MergedLabelsWellFormed(annotations, info);
    RoundTrip(MergedLabels(annotations, info));
  }

  /** The written label list is non-empty, so a second reconcile reads it back. */
  lemma SerializedLabelsNonEmpty(labels: map<string, string>)
    requires labels != map[]
    ensures SerializedLabels(labels) != ""
  {
    var k :| k in labels;
    assert Entry(k, labels[k]) in Entries(labels);
    var list := SortedElements(Entries(labels));
    assert |list| > 0;
    assert |list[0]| > 0 by {
      var j :| j in labels && list[0] == Entry(j, labels[j]);
    }
    if |list| > 1 {
      assert Join(list, ',') == list[0] + [','] + Join(list[1..], ',');
    }
  }

  /** The written label list holds the architecture label exactly once, and no key twice:
      each of its pieces defines a different key. */
  lemma ArchLabelOnce(annotations: map<string, string>, info: InstanceTypeInfo)
    ensures var pieces := Split(Annotated(annotations, info)[LabelsKey], ',');
            && (exists i :: 0 <= i < |pieces| && pieces[i] == Entry(ArchLabelKey, info.cpuArchitecture.Name()))
            && (forall i, j :: 0 <= i < j < |pieces| ==> PieceKey(pieces[i]) != PieceKey(pieces[j]))
  {
    MergedLabelsWellFormed(annotations, info);
    SerializedPiecesOnce(MergedLabels(annotations, info), ArchLabelKey);
  }

  /** Writing the annotations a second time with the same instance type changes nothing. */
  lemma AnnotatedIdempotent(annotations: map<string, string>, info: InstanceTypeInfo)
    ensures Annotated(Annotated(annotations, info), info) == Annotated(annotations, info)
  {
    var a := Annotated(annotations, info);
    var s := SerializedLabels(MergedLabels(annotations, info));
    MergedAfterWrite(annotations, info);
    RewriteSame(a, CpuKey, FormatInt(info.vcpu), MemoryKey, FormatInt(info.memoryMb),
                GpuKey, FormatInt(info.gpu), LabelsKey, s);
  }

  /** Merging the architecture label into labels that already carry it changes nothing. */
  lemma MergedAfterWrite(annotations: map<string, string>, info: InstanceTypeInfo)
    ensures MergedLabels(Annotated(annotations, info), info) == MergedLabels(annotations, info)
  {
    var m := MergedLabels(annotations, info);
    ExistingAfterWrite(annotations, info);
    assert ArchLabelKey in m && m[ArchLabelKey] == info.cpuArchitecture.Name();
    assert m[ArchLabelKey := info.cpuArchitecture.Name()] == m;
  }

  /** After a write, the labels read from the annotations are the merged labels. */
  lemma ExistingAfterWrite(annotations: map<string, string>, info: InstanceTypeInfo)
    ensures ExistingLabels(Annotated(annotations, info)) == MergedLabels(annotations, info)
  {
    var a := Annotated(annotations, info);
    var m := MergedLabels(annotations, info);
    MergedLabelsWellFormed(annotations, info);
    RoundTrip(m);
    assert ArchLabelKey in m;
    SerializedLabelsNonEmpty(m);
    assert a[LabelsKey] == SerializedLabels(m);
  }

  /** Writing values a map already holds leaves it unchanged. */
  lemma RewriteSame(a: map<string, string>, k0: string, v0: string, k1: string, v1: string,
                    k2: string, v2: string, k3: string, v3: string)
    requires k0 in a && a[k0] == v0 && k1 in a && a[k1] == v1
    requires k2 in a && a[k2] == v2 && k3 in a && a[k3] == v3
    ensures a[k0 := v0][k1 := v1][k2 := v2][k3 := v3] == a
  {
  }

  /** Rewriting the owned annotations does not change the decision a reconcile takes. */
  lemma PlanIgnoresOwnedAnnotations(r: Reconciler, md: MachineDeployment, annotations: map<string, string>)
    requires forall k :: !Owned(k) ==> (k in annotations <==> k in md.annotations)
    requires forall k :: !Owned(k) && k in annotations ==> annotations[k] == md.annotations[k]
    ensures Plan(r, md.(annotations := annotations)) == Plan(r, md)
  {
    assert !Owned(RegionAnnotation) by {
      assert RegionAnnotation[0] == 'c';
      assert |RegionAnnotation| != |CpuKey| && |RegionAnnotation| != |MemoryKey| && |RegionAnnotation| != |GpuKey|;
      assert |RegionAnnotation| != |LabelsKey|;
    }
    ResolutionIgnoresOtherAnnotations(r.store, md, annotations);
  }

  /** Reconciling twice is reconciling once: after a successful write the next reconcile
      takes the same decision and writes the same annotations. */
  lemma ReconcileIdempotent(r: Reconciler, md: MachineDeployment, info: InstanceTypeInfo)
    requires Plan(r, md) == Write(info)
    ensures var md' := md.(annotations := Annotated(md.annotations, info));
            Plan(r, md') == Write(info) && Annotated(md'.annotations, info) == md'.annotations
  {
    AnnotatedKeepsOthers(md.annotations, info);
    PlanIgnoresOwnedAnnotations(r, md, Annotated(md.annotations, info));
    AnnotatedIdempotent(md.annotations, info);
  }

  /** The a1.2xlarge example: 8 vCPUs, 16384 MiB, no GPU, amd64, on a deployment without
      annotations. */
  lemma A1TwoXLargeExample()
    ensures Annotated(map[], InstanceTypeInfo(8, 16384, 0, Amd64)) ==
            map[CpuKey := "8", MemoryKey := "16384", GpuKey := "0", LabelsKey := "kubernetes.io/arch=amd64"]
  {
    assert MergedLabels(map[], InstanceTypeInfo(8, 16384, 0, Amd64)) == map[ArchLabelKey := "amd64"];
    SingleLabel(ArchLabelKey, "amd64");
    assert Entry(ArchLabelKey, "amd64") == "kubernetes.io/arch=amd64";
    assert FormatInt(16384) == "16384";
  }
}
