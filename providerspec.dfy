/** Resolution of the objects a MachineDeployment points at: its AWSMachineTemplate, the
    instance type in it, and the AWS region of its cluster (pkg/utils/providerspec.go). */
module ProviderSpec {
  import opened Wrappers
  import opened Errors
  import opened Kube

  /** The annotation a MachineDeployment may carry to name its region when the cluster
      chain does not yield one. */
  const RegionAnnotation: string := "capa.infrastructure.cluster.x-k8s.io/region"

  /** The only template kind the controller accepts. */
  const TemplateKind: string := "AWSMachineTemplate"

  /** A reference's namespace, or the referring object's when the reference leaves it empty. */
  function DefaultNamespace(namespace: string, fallback: string): string {
    if namespace == "" then fallback else namespace
  }

  /** Where the template of a MachineDeployment is fetched from. */
  function TemplateKey(md: MachineDeployment): (key: ObjectKey)
    ensures key.name == md.infrastructureRef.name
    ensures md.infrastructureRef.namespace != "" ==> key.namespace == md.infrastructureRef.namespace
    ensures md.infrastructureRef.namespace == "" ==> key.namespace == md.namespace
  {
    ObjectKey(DefaultNamespace(md.infrastructureRef.namespace, md.namespace), md.infrastructureRef.name)
  }

  /** Fetches the AWSMachineTemplate a MachineDeployment refers to. An empty reference name
      is refused before the kind is looked at. */
  function ResolveAWSMachineTemplate(store: Store, md: MachineDeployment): (r: Result<AWSMachineTemplate, Error>)
    ensures r.Success? <==>
              md.infrastructureRef.name != "" && md.infrastructureRef.kind == TemplateKind &&
              TemplateKey(md) in store.templates
    ensures r.Success? ==> r.value == store.templates[TemplateKey(md)]
    ensures md.infrastructureRef.name == "" ==> r == Failure(InfrastructureRefNameEmpty)
    ensures md.infrastructureRef.name != "" && md.infrastructureRef.kind != TemplateKind ==>
              r == Failure(UnexpectedTemplateKind(md.infrastructureRef.kind))
    ensures md.infrastructureRef.name != "" && md.infrastructureRef.kind == TemplateKind &&
            TemplateKey(md) !in store.templates ==>
              r == Failure(TemplateFetchFailed(TemplateKey(md).namespace, TemplateKey(md).name))
  {
    var ref := md.infrastructureRef;
    if ref.name == "" then Failure(InfrastructureRefNameEmpty)
    else if ref.kind != TemplateKind then Failure(UnexpectedTemplateKind(ref.kind))
    else
      var key := TemplateKey(md);
      if key !in store.templates then Failure(TemplateFetchFailed(key.namespace, key.name))
      else Success(store.templates[key])
  }

  /** The instance type named in a template; a nil template or an empty instance type is an
      error, so a successful result is never empty. */
  function ExtractInstanceType(template: Option<AWSMachineTemplate>): (r: Result<string, Error>)
    ensures r.Success? <==> template.Some? && template.value.instanceType != ""
    ensures r.Success? ==> r.value == template.value.instanceType && r.value != ""
    ensures template.None? ==> r == Failure(TemplateNil)
    ensures template.Some? && template.value.instanceType == "" ==> r == Failure(InstanceTypeEmpty)
  {
    match template
    case None => Failure(TemplateNil)
    case Some(t) => if t.instanceType == "" then Failure(InstanceTypeEmpty) else Success(t.instanceType)
  }

  /** Where the Cluster of a MachineDeployment is fetched from: its own namespace. */
  function ClusterKey(md: MachineDeployment): (key: ObjectKey)
    ensures key.namespace == md.namespace && key.name == md.clusterName
  {
    ObjectKey(md.namespace, md.clusterName)
  }

  /** Where the AWSCluster of a Cluster is fetched from: the reference's namespace, or the
      Cluster's own when the reference leaves it empty. */
  function AWSClusterKey(ref: ObjectReference, cluster: Cluster): (key: ObjectKey)
    ensures key.name == ref.name
    ensures ref.namespace != "" ==> key.namespace == ref.namespace
    ensures ref.namespace == "" ==> key.namespace == cluster.namespace
  {
    ObjectKey(DefaultNamespace(ref.namespace, cluster.namespace), ref.name)
  }

  /** The cluster chain succeeds: the Cluster exists, refers by name to an AWSCluster that
      exists, and that AWSCluster names a region. */
  predicate ChainYields(store: Store, md: MachineDeployment, region: string) {
    && ClusterKey(md) in store.clusters
    && var cluster := store.clusters[ClusterKey(md)];
    && cluster.infrastructureRef.Some?
    && cluster.infrastructureRef.value.name != ""
    && AWSClusterKey(cluster.infrastructureRef.value, cluster) in store.awsClusters
    && var awsCluster := store.awsClusters[AWSClusterKey(cluster.infrastructureRef.value, cluster)];
    && awsCluster.region != ""
    && region == awsCluster.region
  }

  /** The region of the AWSCluster behind a MachineDeployment's Cluster, with the error of the
      first link of the chain that is missing. */
  function RegionFromAWSCluster(store: Store, md: MachineDeployment): (r: Result<string, Error>)
    ensures r.Success? ==> ChainYields(store, md, r.value) && r.value != ""
    ensures (exists region :: ChainYields(store, md, region)) ==> r.Success?
    ensures ClusterKey(md) !in store.clusters ==> r == Failure(ClusterFetchFailed(md.namespace, md.clusterName))
    ensures ClusterKey(md) in store.clusters ==>
              var cluster := store.clusters[ClusterKey(md)];
              && (cluster.infrastructureRef.None? ==> r == Failure(ClusterInfrastructureRefNil(cluster.name)))
              && (cluster.infrastructureRef.Some? && cluster.infrastructureRef.value.name == "" ==>
                    r == Failure(ClusterInfrastructureRefNameEmpty(cluster.name)))
              && (cluster.infrastructureRef.Some? && cluster.infrastructureRef.value.name != "" ==>
                    var key := AWSClusterKey(cluster.infrastructureRef.value, cluster);
                    && (key !in store.awsClusters ==> r == Failure(AWSClusterFetchFailed(key.namespace, key.name)))
                    && (key in store.awsClusters && store.awsClusters[key].region == "" ==>
                          r == Failure(AWSClusterRegionEmpty(store.awsClusters[key].name))))
  {
    var key := ClusterKey(md);
    if key !in store.clusters then Failure(ClusterFetchFailed(key.namespace, key.name))
    else
      var cluster := store.clusters[key];
      match cluster.infrastructureRef
      case None => Failure(ClusterInfrastructureRefNil(cluster.name))
      case Some(ref) =>
        if ref.name == "" then Failure(ClusterInfrastructureRefNameEmpty(cluster.name))
        else
          var awsKey := AWSClusterKey(ref, cluster);
          if awsKey !in store.awsClusters then Failure(AWSClusterFetchFailed(awsKey.namespace, awsKey.name))
          else
            var awsCluster := store.awsClusters[awsKey];
            if awsCluster.region == "" then Failure(AWSClusterRegionEmpty(awsCluster.name))
            else Success(awsCluster.region)
  }

  /** The region annotation, when present and non-empty. */
  function AnnotatedRegion(md: MachineDeployment): (r: Option<string>)
    ensures r.Some? <==> RegionAnnotation in md.annotations && md.annotations[RegionAnnotation] != ""
    ensures r.Some? ==> r.value == md.annotations[RegionAnnotation] && r.value != ""
  {
    if RegionAnnotation in md.annotations && md.annotations[RegionAnnotation] != "" then
      Some(md.annotations[RegionAnnotation])
    else None
  }

  /** The AWS region of a MachineDeployment: the cluster chain's when the deployment names a
      cluster and the chain succeeds, otherwise the region annotation; a failing chain is
      never itself an error. */
  function ResolveRegion(store: Store, md: MachineDeployment): (r: Result<string, Error>)
    ensures r.Success? ==> r.value != ""
    ensures r.Failure? ==> r.error == RegionUndetermined
    ensures md.clusterName != "" && RegionFromAWSCluster(store, md).Success? ==>
              r == RegionFromAWSCluster(store, md)
    ensures (md.clusterName == "" || RegionFromAWSCluster(store, md).Failure?) ==>
              (r.Success? <==> AnnotatedRegion(md).Some?) &&
              (r.Success? ==> r.value == md.annotations[RegionAnnotation])
  {
    var chain := if md.clusterName != "" then RegionFromAWSCluster(store, md) else Failure(RegionUndetermined);
    if chain.Success? then chain
    else if RegionAnnotation in md.annotations && md.annotations[RegionAnnotation] != "" then
      Success(md.annotations[RegionAnnotation])
    else Failure(RegionUndetermined)
  }

  /** A successful region comes from one of the two sources and from nowhere else. */
  lemma ResolvedRegionSource(store: Store, md: MachineDeployment)
    requires ResolveRegion(store, md).Success?
    ensures var region := ResolveRegion(store, md).value;
            (md.clusterName != "" && ChainYields(store, md, region)) ||
            (RegionAnnotation in md.annotations && region == md.annotations[RegionAnnotation])
  {
  }

  /** Neither resolution reads any annotation except the region annotation, so rewriting other
      annotations cannot change what they resolve to. */
  lemma ResolutionIgnoresOtherAnnotations(store: Store, md: MachineDeployment, annotations: map<string, string>)
    requires (RegionAnnotation in annotations) == (RegionAnnotation in md.annotations)
    requires RegionAnnotation in annotations ==> annotations[RegionAnnotation] == md.annotations[RegionAnnotation]
    ensures var md' := md.(annotations := annotations);
            ResolveAWSMachineTemplate(store, md') == ResolveAWSMachineTemplate(store, md) &&
            ResolveRegion(store, md') == ResolveRegion(store, md)
  {
    var md' := md.(annotations := annotations);
    assert RegionFromAWSCluster(store, md') == RegionFromAWSCluster(store, md);
  }
}
