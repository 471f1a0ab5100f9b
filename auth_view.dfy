/**
  The signed-in shell (`src/components/Auth.tsx`): on mount it initialises the
  shared `DataService` with the user's token and only then shows the editor;
  it builds the hosted-login logout URL; and closing the template picker
  announces the chosen template on the data bus.
*/
module AuthViews {
  import opened Wrappers
  import opened Strings
  import opened UriEncoding
  import opened DataServices
  import opened DataBuses

  /** The hosted-login settings the logout URL is built from. */
  datatype LogoutConfig = LogoutConfig(clientId: string, redirectUriSignOut: string, appWebDomain: string)

  /** `signOutRedirect`'s target: the logout endpoint of the login domain, with the client id
      and the percent-encoded sign-out redirect as its two query parameters. */
  function LogoutUrl(cfg: LogoutConfig): (r: string)
    ensures StartsWith(r, "https://" + cfg.appWebDomain + "/logout?client_id=" + cfg.clientId + "&logout_uri=")
    ensures EndsWith(r, EncodeURIComponent(cfg.redirectUriSignOut))
    ensures |r| == |"https://" + cfg.appWebDomain + "/logout?client_id=" + cfg.clientId + "&logout_uri="|
                   + |EncodeURIComponent(cfg.redirectUriSignOut)|
    ensures forall k :: |r| - |EncodeURIComponent(cfg.redirectUriSignOut)| <= k < |r| ==> r[k] != '&' && r[k] != '#'
  {
    var head := "https://" + cfg.appWebDomain + "/logout?client_id=" + cfg.clientId + "&logout_uri=";
    var tail := EncodeURIComponent(cfg.redirectUriSignOut);
    assert (head + tail)[..|head|] == head;
    assert (head + tail)[|head|..] == tail;
    head + tail
  }

  /** A redirect made only of unreserved characters appears in the logout URL as it is. */
  lemma LogoutUrlPlainRedirect(cfg: LogoutConfig)
    requires forall k :: 0 <= k < |cfg.redirectUriSignOut| ==> IsUnreserved(cfg.redirectUriSignOut[k])
    ensures LogoutUrl(cfg) == "https://" + cfg.appWebDomain + "/logout?client_id=" + cfg.clientId
                              + "&logout_uri=" + cfg.redirectUriSignOut
  {
    EncodeUnreserved(cfg.redirectUriSignOut);
  }

  /** What the component renders. */
  datatype View = Spinner | EditorView(service: CrudService)

  class AuthView {
    const dataSvc: DataService
    const bus: DataBus<string>
    var isAuthenticated: bool
    var jwt: string
    var username: string
    var open: bool
    var selectedValue: string
    /** Calls of the login library's `removeUser`. */
    var removeUserCalls: nat
    /** `window.location.href` once a redirect has been asked for. */
    var location: Option<string>

    /** The editor is only shown once the shared service can be handed to it. */
    predicate Valid()
      reads this, dataSvc
    {
      isAuthenticated ==> dataSvc.GetService().Success?
    }

    constructor(dataSvc: DataService, bus: DataBus<string>)
      ensures Valid()
      ensures this.dataSvc == dataSvc && this.bus == bus
      ensures !isAuthenticated && jwt == "" && username == "" && !open && selectedValue == "basic"
      ensures removeUserCalls == 0 && location.None?
    {
      this.dataSvc := dataSvc;
      this.bus := bus;
      isAuthenticated := false;
      jwt := "";
      username := "";
      open := false;
      selectedValue := "basic";
      removeUserCalls := 0;
      location := None;
    }

    /** The mount effect, from the call of `init` to its settlement: only a successful
        `init` marks the user authenticated and keeps the token and the user name; a
        rejected one leaves the component as it was. */
    method InitEffect(config: AuthConfig, token: string, user: string,
                      identity: Result<Option<string>>, credentials: Result<Option<Credentials>>)
      returns (outcome: Outcome)
      requires Valid()
      modifies this, dataSvc
      ensures Valid()
      ensures outcome.Pass? ==> isAuthenticated && jwt == token && username == user
      ensures outcome.Fail? ==>
                && isAuthenticated == old(isAuthenticated) && jwt == old(jwt) && username == old(username)
                && dataSvc.svc == old(dataSvc.svc) && dataSvc.ready == old(dataSvc.ready)
      ensures outcome.Pass? <==> identity.Success? && credentials.Success? && credentials.value.Some?
      ensures open == old(open) && selectedValue == old(selectedValue)
      ensures removeUserCalls == old(removeUserCalls) && location == old(location)
    {
      outcome := dataSvc.Init(config, token, identity, credentials);
      if outcome.Pass? {
        isAuthenticated := true;
        jwt := token;
        username := user;
      }
    }

    /** The spinner until authenticated, then the editor with the shared service. */
    function Render(): (v: View)
      requires Valid()
      reads this, dataSvc
      ensures v.EditorView? <==> isAuthenticated
      ensures v.EditorView? ==> dataSvc.svc == Some(v.service) && dataSvc.ready
    {
      if !isAuthenticated then Spinner else EditorView(dataSvc.GetService().value)
    }

    /** `signOutRedirect`: the user is removed from the login library, then the browser is sent to the logout URL. */
    method SignOutRedirect(cfg: LogoutConfig)
      modifies this
      ensures removeUserCalls == old(removeUserCalls) + 1
      ensures location == Some(LogoutUrl(cfg))
      ensures isAuthenticated == old(isAuthenticated) && open == old(open) && selectedValue == old(selectedValue)
      ensures jwt == old(jwt) && username == old(username)
    {
      removeUserCalls := removeUserCalls + 1;
      location := Some(LogoutUrl(cfg));
    }

    /** `handleTemplateClose`: the choice is kept, the picker closes and the bus announces the
        template, lower-cased, as `new-template`. */
    method HandleTemplateClose(value: string)
      requires Valid()
      modifies this, bus
      ensures Valid()
      ensures selectedValue == value && !open
      ensures bus.listeners == old(bus.listeners)
      ensures bus.delivered == old(bus.delivered) + Deliveries(bus.listeners, "new-template", Lower(value))
      ensures isAuthenticated == old(isAuthenticated) && location == old(location)
      ensures jwt == old(jwt) && username == old(username) && removeUserCalls == old(removeUserCalls)
    {
      selectedValue := value;
      open := false;
      bus.Notify("new-template", Lower(value));
    }
  }
}
