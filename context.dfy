/**
 * The endpoint configuration of src/catgpt/context.py: the validating `Endpoint`
 * constructor and the lookups of `Configuration`.
 */
module Context {
  import opened Wrappers
  import opened Seqs
  import opened PyStr

  /** An OpenAI-compatible (or other) API endpoint; `provider` is kept as the configured string. */
  datatype Endpoint = Endpoint(
    name: string,
    apiUrl: string,
    secretKey: string,
    models: seq<string>,
    provider: string,
    defaultModel: string,
    defaultEndpoint: bool,
    generateTitle: bool)

  /**
   * Lines 15-40. The four asserts are checked in order; a missing (falsy) `default_model`
   * becomes the first listed model. The provider string is not checked here.
   */
  function NewEndpoint(name: string, apiUrl: string, secretKey: string, models: seq<string>,
                       provider: string := "openai", defaultModel: string := "",
                       defaultEndpoint: bool := false, generateTitle: bool := true): (r: Result<Endpoint>)
    ensures r.Ok? <==> name != [] && apiUrl != [] && secretKey != [] && models != []
    ensures name == [] ==> r == Err("endpoint name can't be empty")
    ensures name != [] && apiUrl == [] ==> r == Err("api url can't be empty")
    ensures name != [] && apiUrl != [] && secretKey == [] ==> r == Err("secret key can't be empty")
    ensures name != [] && apiUrl != [] && secretKey != [] && models == [] ==> r == Err("models can't be empty")
    ensures r.Ok? ==>
      && r.value.name == name && r.value.apiUrl == apiUrl && r.value.secretKey == secretKey
      && r.value.models == models && r.value.provider == provider
      && r.value.defaultEndpoint == defaultEndpoint && r.value.generateTitle == generateTitle
      && (defaultModel != [] ==> r.value.defaultModel == defaultModel)
      && (defaultModel == [] ==> r.value.defaultModel == models[0] && r.value.defaultModel in models)
  {
    if name == [] then Err("endpoint name can't be empty")
    else if apiUrl == [] then Err("api url can't be empty")
    else if secretKey == [] then Err("secret key can't be empty")
    else if models == [] then Err("models can't be empty")
    else
      Ok(Endpoint(name, apiUrl, secretKey, models, provider,
                  if defaultModel == [] then models[0] else defaultModel,
                  defaultEndpoint, generateTitle))
  }

  predicate Flagged(e: Endpoint) {
    e.defaultEndpoint
  }

  predicate Named(e: Endpoint, name: string) {
    e.name == name
  }

  /** The models of one endpoint, as a set. */
  function ModelSet(e: Endpoint): (ms: set<string>)
    ensures forall m :: m in ms <==> m in e.models
  {
    set i | 0 <= i < |e.models| :: e.models[i]
  }

  /** The models that some endpoint of `endpoints` lists. */
  ghost function AllModels(endpoints: seq<Endpoint>): set<string> {
    if endpoints == [] then {}
    else AllModels(endpoints[..|endpoints| - 1]) + ModelSet(endpoints[|endpoints| - 1])
  }

  lemma {:induction false} AllModelsMembers(endpoints: seq<Endpoint>, m: string)
    ensures m in AllModels(endpoints) <==> exists i :: 0 <= i < |endpoints| && m in endpoints[i].models
  {
    if endpoints != [] {
      var n := |endpoints| - 1;
      AllModelsMembers(endpoints[..n], m);
      if m in AllModels(endpoints[..n]) {
        var i :| 0 <= i < n && m in endpoints[..n][i].models;
        assert m in endpoints[i].models;
      }
      if exists i :: 0 <= i < |endpoints| && m in endpoints[i].models {
        var i :| 0 <= i < |endpoints| && m in endpoints[i].models;
        if i < n {
          assert m in endpoints[..n][i].models;
        }
      }
    }
  }

  /** The loaded configuration (lines 52-58); `init_configuration` fills it from the config file. */
  class Configuration {
    var accessKey: string
    var proxyUrl: Option<string>
    var endpoints: seq<Endpoint>

    constructor ()
      ensures accessKey == [] && proxyUrl == None && endpoints == []
    {
      accessKey := [];
      proxyUrl := None;
      endpoints := [];
    }

    /**
     * Lines 63-68: the first endpoint flagged `default_endpoint`, else the first endpoint.
     * The source indexes the list, so it needs at least one endpoint (which
     * `init_configuration` asserts).
     */
    function GetDefaultEndpoint(): (e: Endpoint)
      reads this
      requires endpoints != []
      ensures e in endpoints
      ensures e.defaultEndpoint <==> exists i :: 0 <= i < |endpoints| && endpoints[i].defaultEndpoint
      ensures !e.defaultEndpoint ==> e == endpoints[0]
      ensures forall k :: (0 <= k < |endpoints| && endpoints[k].defaultEndpoint
                           && forall j :: 0 <= j < k ==> !endpoints[j].defaultEndpoint) ==> e == endpoints[k]
    {
      match FirstIndex(endpoints, Flagged)
      case Some(k) => endpoints[k]
      case None => endpoints[0]
    }

    /** Lines 70-75: the first endpoint with exactly this name, or None. */
    function GetEndpoint(name: string): (r: Option<Endpoint>)
      reads this
      ensures r.None? <==> forall i :: 0 <= i < |endpoints| ==> endpoints[i].name != name
      ensures r.Some? ==> r.value in endpoints && r.value.name == name
      ensures r.Some? ==> forall k :: (0 <= k < |endpoints| && endpoints[k].name == name
                                       && forall j :: 0 <= j < k ==> endpoints[j].name != name) ==> r.value == endpoints[k]
    {
      match FirstIndex(endpoints, (e: Endpoint) => Named(e, name))
      case Some(k) => Some(endpoints[k])
      case None => None
    }

    /** When names are distinct, looking an endpoint up by its name finds that endpoint. */
    lemma GetEndpointByName(i: nat)
      requires i < |endpoints|
      requires forall j, k :: 0 <= j < k < |endpoints| ==> endpoints[j].name != endpoints[k].name
      ensures GetEndpoint(endpoints[i].name) == Some(endpoints[i])
    {
      var name := endpoints[i].name;
      var r := GetEndpoint(name);
      assert r.Some? by { assert endpoints[i].name == name; }
      var k :| 0 <= k < |endpoints| && endpoints[k] == r.value;
      if k != i {
        if k < i {
          assert endpoints[k].name != endpoints[i].name;
        } else {
          assert endpoints[i].name != endpoints[k].name;
        }
      }
    }

    /** Lines 84-90: the union of all endpoints' models, sorted and without repeats. */
    method GetModels() returns (r: seq<string>)
      ensures StrictlySorted(r)
      ensures forall m :: m in r <==> exists i :: 0 <= i < |endpoints| && m in endpoints[i].models
    {
      var models: set<string> := {};
      for i := 0 to |endpoints|
        invariant models == AllModels(endpoints[..i])
      {
        assert endpoints[..i + 1][..i] == endpoints[..i];
        models := models + ModelSet(endpoints[i]);
      }
      assert endpoints[..|endpoints|] == endpoints;
      r := SortedStrings(models);
      forall m
        ensures m in r <==> exists i :: 0 <= i < |endpoints| && m in endpoints[i].models
      {
        AllModelsMembers(endpoints, m);
      }
    }
  }
}
