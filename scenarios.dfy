/**
 * Clients of the component: what a caller can conclude from the method
 * contracts alone, on concrete stores.
 */
module Scenarios {
  import opened Wrappers
  import opened ConfigStore
  import opened ServiceCache
  import opened AuthServiceConfiguration

  /** A configured main wiki answers from the store once, then from the cache. */
  method ConfiguredHintIsLoadedOnce()
  {
    var c := new AuthenticationServiceConfiguration(DocumentStore(map["main" := ConfigObject("basic")], {}, {}));
    var r := c.GetAuthenticationService("main", map[]);
    assert r == Ok(Some("basic")) && c.loads == 1;
    r := c.GetAuthenticationService("main", map[]);
    assert r == Ok(Some("basic")) && c.loads == 1 && c.propertyReads == 0;
  }

  /** A blank main-wiki value falls back to the instance property, and the absence is cached. */
  method BlankHintFallsBackToInstanceProperty()
  {
    var c := new AuthenticationServiceConfiguration(DocumentStore(map["main" := ConfigObject(" \t")], {}, {}));
    var props := map["security.authentication.authService" := "ldap"];
    assert ConfigurationInstanceProperty == "security.authentication.authService";
    assert IsBlank(" \t");
    var r := c.GetAuthenticationService("main", props);
    assert r == Ok(Some("ldap"));
    r := c.GetAuthenticationService("main", map[]);
    assert r == Ok(None) && c.loads == 1 && c.propertyReads == 2;
  }

  /** A failing store propagates its error, caches nothing and does not read the instance property. */
  method StoreFailurePropagates()
  {
    var c := new AuthenticationServiceConfiguration(DocumentStore(map[], {"main"}, {}));
    var r := c.GetAuthenticationService("main", map["security.authentication.authService" := "ldap"]);
    assert r == Err(DocumentAccessFailed("main"));
    assert c.serviceCache == map[] && c.propertyReads == 0;
  }

  /** A write is seen only after the main wiki is invalidated. */
  method WriteNeedsInvalidation()
  {
    var c := new AuthenticationServiceConfiguration(DocumentStore(map["main" := ConfigObject("basic")], {}, {}));
    var r := c.GetAuthenticationService("main", map[]);
    assert r == Ok(Some("basic"));
    var saved := c.SetAuthenticationService(Some("saml"), "main");
    assert saved == Ok(());
    r := c.GetAuthenticationService("main", map[]);
    assert r == Ok(Some("basic"));
    c.Invalidate("main");
    r := c.GetAuthenticationService("main", map[]);
    assert r == Ok(Some("saml")) && c.loads == 2;
  }

  /** A save that throws propagates its error and leaves the stored hint as it was. */
  method FailedSaveChangesNothing()
  {
    var c := new AuthenticationServiceConfiguration(DocumentStore(map["main" := ConfigObject("basic")], {}, {"main"}));
    var saved := c.SetAuthenticationService(Some("saml"), "main");
    assert saved == Err(DocumentSaveFailed("main"));
    c.Invalidate("main");
    var r := c.GetAuthenticationService("main", map[]);
    assert r == Ok(Some("basic"));
  }
}
