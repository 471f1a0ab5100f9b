/**
  `DataService` (`src/helpers/DataService.ts`): holds the storage service the
  editor talks to and whether it is ready. `init` exchanges the user's token
  for temporary credentials with two identity-pool requests and then builds the
  storage service from them; the two requests are not modelled, their settled
  results are parameters, and the requests themselves are recorded in `calls`.
*/
module DataServices {
  import opened Wrappers

  /** The temporary credentials the identity pool hands out. */
  datatype Credentials = Credentials(accessKeyId: string, secretKey: string, sessionToken: string)

  /** A storage service: one handed to the constructor, or the one `init` builds from credentials. */
  datatype CrudService = Injected(id: nat) | Aws(region: string, credentials: Credentials)

  /** The deployment settings `init` reads. */
  datatype AuthConfig = AuthConfig(region: string, identityPoolId: string, userPoolId: string)

  /** The two identity-pool requests; each carries its one login entry (provider name, token). */
  datatype CognitoCall =
    | GetId(identityPoolId: string, login: (string, string))
    | GetCredentialsForIdentity(identityId: Option<string>, login: (string, string))

  /** The login entry both requests carry: the user pool's provider name mapped to the token. */
  function Login(config: AuthConfig, token: string): (string, string) {
    ("cognito-idp." + config.region + ".amazonaws.com/" + config.userPoolId, token)
  }

  const NotInitialized := "Service not initialized. Call init() first."
  const NotReady := "Service is not ready yet. Please wait for initialization."
  /** The message of the `TypeError` V8 (the engine of Chrome and Node.js) throws when a field
      of the missing `Credentials` object is read; other engines word it differently. */
  const NoCredentials := "Cannot read properties of undefined (reading 'AccessKeyId')"

  class DataService {
    var svc: Option<CrudService>
    var ready: bool
    /** The identity-pool requests sent so far, in order. */
    var calls: seq<CognitoCall>

    /** A new service is never ready, whether or not an instance was passed in. */
    constructor(serviceInstance: Option<CrudService>)
      ensures svc == serviceInstance && !ready && calls == []
    {
      svc := serviceInstance;
      ready := false;
      calls := [];
    }

    /** `isReady`: a present service is ready exactly when `getService` hands it out. */
    function IsReady(): (r: bool)
      reads this
      ensures r && svc.Some? <==> GetService().Success?
      ensures svc.Some? && !r ==> GetService() == Failure(NotReady)
    {
      ready
    }

    /**
      `init(token)`, from the call to its settlement. `identity` is how the
      `GetId` request settled and `credentials` how the
      `GetCredentialsForIdentity` request settled (`None` for a response
      without a `Credentials` object). A rejection of either request rejects
      `init` with that error and leaves `svc` and `ready` as they were; after
      the first rejection the second request is never sent.
    */
    method Init(config: AuthConfig, token: string,
                identity: Result<Option<string>>, credentials: Result<Option<Credentials>>)
      returns (outcome: Outcome)
      modifies this
      ensures identity.Failure? ==>
                && outcome == Fail(identity.error)
                && calls == old(calls) + [GetId(config.identityPoolId, Login(config, token))]
      ensures identity.Success? ==>
                calls == old(calls) + [GetId(config.identityPoolId, Login(config, token)),
                                       GetCredentialsForIdentity(identity.value, Login(config, token))]
      ensures identity.Success? && credentials.Failure? ==> outcome == Fail(credentials.error)
      ensures identity.Success? && credentials == Success(None) ==> outcome == Fail(NoCredentials)
      ensures outcome.Fail? ==> svc == old(svc) && ready == old(ready)
      ensures outcome.Pass? <==> identity.Success? && credentials.Success? && credentials.value.Some?
      ensures outcome.Pass? ==> svc == Some(Aws(config.region, credentials.value.value)) && ready
    {
      var login := Login(config, token);
      calls := calls + [GetId(config.identityPoolId, login)];
      if identity.Failure? {
        return Fail(identity.error);
      }
      calls := calls + [GetCredentialsForIdentity(identity.value, login)];
      if credentials.Failure? {
        return Fail(credentials.error);
      }
      if credentials.value.None? {
        return Fail(NoCredentials);
      }
      svc := Some(Aws(config.region, credentials.value.value));
      ready := true;
      outcome := Pass;
    }

    /** `getService`: the missing service is reported before readiness, and the service
        is returned exactly when it is present and ready. */
    function GetService(): (r: Result<CrudService>)
      reads this
      ensures svc.None? ==> r == Failure(NotInitialized)
      ensures svc.Some? && !ready ==> r == Failure(NotReady)
      ensures r.Success? <==> svc.Some? && ready
      ensures r.Success? ==> r.value == svc.value
    {
      if svc.None? then Failure(NotInitialized)
      else if !ready then Failure(NotReady)
      else Success(svc.value)
    }
  }

  /** Whatever was passed in, a new service refuses `getService`, and says why. */
  method NewServiceNotReady(serviceInstance: Option<CrudService>) returns (r: Result<CrudService>)
    ensures r.Failure?
    ensures r.error == if serviceInstance.None? then NotInitialized else NotReady
  {
    var ds := new DataService(serviceInstance);
    r := ds.GetService();
  }

  /** `init` settling successfully and then `getService`: the service built from the credentials. */
  method InitThenGetService(config: AuthConfig, token: string, identityId: Option<string>, creds: Credentials)
    returns (r: Result<CrudService>)
    ensures r == Success(Aws(config.region, creds))
  {
    var ds := new DataService(None);
    var outcome := ds.Init(config, token, Success(identityId), Success(Some(creds)));
    r := ds.GetService();
  }
}
