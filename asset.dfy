/** The asset API client: its URLs, the one mutable map of the last successful
    response, the operations that refresh it, and the views computed from it. */
module AssetApi {
  import opened Normalization
  import opened Warranty
  import opened Configuration

  const DefaultApiDomain := "https://apigtwb2c.us.dell.com"
  const TokenPath := "/auth/oauth/v2/token"
  const ApiBasePath := "/PROD/sbil/eapi/v5"

  /** A GET as handed to the REST client: the endpoint name and the query parameters. */
  datatype Request = Request(endpoint: string, params: map<string, string>)

  class Asset {
    /** The API domain every URL starts with; public, so a caller may override it. */
    var apiDomain: string
    /** The records of the last successful response, by service tag. */
    var assets: map<Tag, Record>
    /** The GET requests issued so far, oldest first. */
    ghost var sent: seq<Request>

    /** No two entries hold records with the same `serviceTag`. */
    ghost predicate Valid()
      reads this
    {
      UniqueTags(assets)
    }

    /** Construction needs a client id and a client secret in the environment; the
        token exchange that follows is not modelled. */
    constructor (env: map<string, string>)
      requires LoadCredentials(env).Some?
      ensures Valid()
      ensures apiDomain == DefaultApiDomain && assets == map[] && sent == []
    {
      apiDomain := DefaultApiDomain;
      assets := map[];
      sent := [];
    }

    /** The identity provider's token URL: the domain followed by the token path. */
    function GetBaseAccessTokenUrl(): (url: string)
      reads this
      ensures apiDomain <= url && url[|apiDomain|..] == TokenPath
    {
      apiDomain + TokenPath
    }

    /** The base of every API endpoint: the domain followed by the API version path. */
    function GetBaseApiEndpointUrl(): (url: string)
      reads this
      ensures apiDomain <= url && url[|apiDomain|..] == ApiBasePath
    {
      apiDomain + ApiBasePath
    }

    /** The full URL of one endpoint: the domain, the API version path, a slash and
        the endpoint name, from which the name can be read back. */
    function GetApiEndpointUrl(endpoint: string): (url: string)
      reads this
      ensures url == apiDomain + ApiBasePath + "/" + endpoint
      ensures url[|apiDomain| + |ApiBasePath| + 1..] == endpoint
    {
      GetBaseApiEndpointUrl() + "/" + endpoint
    }

    /** One GET on `endpoint`. Only a 200 response changes `assets`: a list body is
        re-indexed by record tag (a later duplicate overwrites an earlier one), a
        single record is stored under the tag string the caller requested. */
    method Get(endpoint: string, serviceTags: string, params: map<string, string>, response: Response)
      requires Valid()
      modifies this
      ensures Valid() && apiDomain == old(apiDomain)
      ensures sent == old(sent) + [Request(endpoint, params)]
      ensures assets == Normalize(old(assets), serviceTags, response)
      ensures response.status != HttpOk ==> assets == old(assets)
      ensures response.status == HttpOk && response.body.List? ==>
        assets.Keys == Tags(response.body.records) && forall t :: t in assets ==> assets[t].serviceTag == t
      ensures response.status == HttpOk && response.body.Single? ==>
        assets == map[serviceTags := response.body.record]
    {
      sent := sent + [Request(endpoint, params)];
      if response.status == HttpOk {
        match response.body
        case List(records) =>
          assets := Index(records);
        case Single(record) =>
          assets := map[serviceTags := record];
      }
    }

    /** The number of entries in the map held. */
    function GetNumAssets(): (n: nat)
      reads this
      ensures n == |assets.Keys|
    {
      |assets|
    }

    method GetAssets(serviceTags: string, response: Response) returns (r: map<Tag, Record>)
      requires Valid()
      modifies this
      ensures Valid() && apiDomain == old(apiDomain)
      ensures sent == old(sent) + [Request("assets", map["servicetags" := serviceTags])]
      ensures assets == Normalize(old(assets), serviceTags, response) && r == assets
    {
      Get("assets", serviceTags, map["servicetags" := serviceTags], response);
      r := assets;
    }

    method GetAssetsWarranty(serviceTags: string, response: Response) returns (r: map<Tag, Record>)
      requires Valid()
      modifies this
      ensures Valid() && apiDomain == old(apiDomain)
      ensures sent == old(sent) + [Request("asset-entitlements", map["servicetags" := serviceTags])]
      ensures assets == Normalize(old(assets), serviceTags, response) && r == assets
    {
      Get("asset-entitlements", serviceTags, map["servicetags" := serviceTags], response);
      r := assets;
    }

    method GetAssetsDetails(serviceTags: string, response: Response) returns (r: map<Tag, Record>)
      requires Valid()
      modifies this
      ensures Valid() && apiDomain == old(apiDomain)
      ensures sent == old(sent) + [Request("asset-components", map["servicetags" := serviceTags])]
      ensures assets == Normalize(old(assets), serviceTags, response) && r == assets
    {
      Get("asset-components", serviceTags, map["servicetags" := serviceTags], response);
      r := assets;
    }

    /** The summary endpoint takes one tag, under the singular parameter key. */
    method GetAssetSummary(serviceTag: string, response: Response) returns (r: map<Tag, Record>)
      requires Valid()
      modifies this
      ensures Valid() && apiDomain == old(apiDomain)
      ensures sent == old(sent) + [Request("asset-entitlement-components", map["servicetag" := serviceTag])]
      ensures assets == Normalize(old(assets), serviceTag, response) && r == assets
    {
      Get("asset-entitlement-components", serviceTag, map["servicetag" := serviceTag], response);
      r := assets;
    }

    /** Fetch the assets, then map each record that has a ship date from its tag to it. */
    method GetShipDate(serviceTags: string, response: Response) returns (r: map<Tag, string>)
      requires Valid()
      modifies this
      ensures Valid() && apiDomain == old(apiDomain)
      ensures sent == old(sent) + [Request("assets", map["servicetags" := serviceTags])]
      ensures assets == Normalize(old(assets), serviceTags, response)
      ensures r == Project(assets, "shipDate")
    {
      var _ := GetAssets(serviceTags, response);
      r := Project(assets, "shipDate");
    }

    /** Fetch the assets, then map each record that has a system description from its
        tag to it. */
    method GetSystemDescription(serviceTags: string, response: Response) returns (r: map<Tag, string>)
      requires Valid()
      modifies this
      ensures Valid() && apiDomain == old(apiDomain)
      ensures sent == old(sent) + [Request("assets", map["servicetags" := serviceTags])]
      ensures assets == Normalize(old(assets), serviceTags, response)
      ensures r == Project(assets, "systemDescription")
    {
      var _ := GetAssets(serviceTags, response);
      r := Project(assets, "systemDescription");
    }

    /** The model of an asset is its system description. */
    method GetModel(serviceTags: string, response: Response) returns (r: map<Tag, string>)
      requires Valid()
      modifies this
      ensures Valid() && apiDomain == old(apiDomain)
      ensures sent == old(sent) + [Request("assets", map["servicetags" := serviceTags])]
      ensures assets == Normalize(old(assets), serviceTags, response)
      ensures r == Project(assets, "systemDescription")
    {
      r := GetSystemDescription(serviceTags, response);
    }

    /** Fetch the warranties, then reduce each record's entitlements to its latest
        end date under the record's tag. */
    method GetWarrantyEndDate(serviceTags: string, response: Response) returns (r: map<Tag, string>)
      requires Valid()
      modifies this
      ensures Valid() && apiDomain == old(apiDomain)
      ensures sent == old(sent) + [Request("asset-entitlements", map["servicetags" := serviceTags])]
      ensures assets == Normalize(old(assets), serviceTags, response)
      ensures Reduced(assets, r)
    {
      var warranties := GetAssetsWarranty(serviceTags, response);
      r := ReduceEndDates(warranties);
    }
  }

  /** Different endpoints never share a URL. */
  lemma EndpointUrlInjective(client: Asset, e1: string, e2: string)
    requires e1 != e2
    ensures client.GetApiEndpointUrl(e1) != client.GetApiEndpointUrl(e2)
  {
  }

  /** The token URL is never the URL of an endpoint. */
  lemma TokenUrlIsNoEndpointUrl(client: Asset, endpoint: string)
    ensures client.GetBaseAccessTokenUrl() != client.GetApiEndpointUrl(endpoint)
  {
    var n := |client.apiDomain|;
    assert client.GetBaseAccessTokenUrl()[n + 1] == 'a';
    assert client.GetApiEndpointUrl(endpoint)[n + 1] == 'P';
  }
}
