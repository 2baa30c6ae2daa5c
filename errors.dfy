/** The errors the controller, the resolvers and the AWS client wrapper return. */
module Errors {

  /** An error produced by a collaborator the model does not look into (the AWS SDK,
      the credential provider). Only its identity matters. */
  datatype ApiError = ApiError(message: string)

  datatype Error =
    // pkg/utils/providerspec.go
    | InfrastructureRefNameEmpty
    | UnexpectedTemplateKind(kind: string)
    | TemplateFetchFailed(namespace: string, name: string)
    | TemplateNil
    | InstanceTypeEmpty
    | ClusterFetchFailed(namespace: string, name: string)
    | ClusterInfrastructureRefNil(cluster: string)
    | ClusterInfrastructureRefNameEmpty(cluster: string)
    | AWSClusterFetchFailed(namespace: string, name: string)
    | AWSClusterRegionEmpty(awsCluster: string)
    | RegionUndetermined
    // pkg/client/client.go
    | Api(cause: ApiError)
    | RegionNotValid(region: string)
    | RegionNotOptedIn(region: string)
    | RegionDataUnavailable(cause: ApiError)
    | RegionNotResolved(region: string, cause: ApiError)
    // pkg/controller/controller.go
    | ClientCreationFailed(inner: Error)
}
