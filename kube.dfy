/** The Kubernetes objects the controller reads, and the API server as an immutable store
    keyed by namespace and name. A `Get` that fails for any reason is an absent key. */
module Kube {
  import opened Wrappers

  datatype ObjectKey = ObjectKey(namespace: string, name: string)

  /** A typed reference to another object (`infrastructureRef`); an empty namespace means
      "the referring object's namespace". */
  datatype ObjectReference = ObjectReference(kind: string, namespace: string, name: string)

  /** The parts of a MachineDeployment the controller reads: its identity, the cluster it
      belongs to, the reference to its machine template, and its annotations. */
  datatype MachineDeployment = MachineDeployment(
    namespace: string,
    name: string,
    clusterName: string,
    infrastructureRef: ObjectReference,
    annotations: map<string, string>)

  /** A cluster-api Cluster; its infrastructure reference is a pointer and may be nil. */
  datatype Cluster = Cluster(namespace: string, name: string, infrastructureRef: Option<ObjectReference>)

  datatype AWSCluster = AWSCluster(namespace: string, name: string, region: string)

  datatype AWSMachineTemplate = AWSMachineTemplate(namespace: string, name: string, instanceType: string)

  /** The objects the controller's client can fetch, by kind. */
  datatype Store = Store(
    clusters: map<ObjectKey, Cluster>,
    awsClusters: map<ObjectKey, AWSCluster>,
    templates: map<ObjectKey, AWSMachineTemplate>)
}
