/** The backend base URL and the two path roots composed from it
    (src/services/config.js). */
module Config {
  import opened Common

  /** The fixed production backend used when no environment value is set. */
  const ProductionUrl: string := "https://foodgram-spring-backend-for-delivery-person-production.up.railway.app"

  datatype Config = Config(baseUrl: string, adminApi: string, restaurantApi: string)

  /** `VITE_API_BASE_URL || <production URL>`. */
  function BaseUrl(env: Option<string>): (r: string)
    ensures Truthy(env) ==> r == env.value
    ensures !Truthy(env) ==> r == ProductionUrl
    ensures r != ""
  {
    OrElse(env, ProductionUrl)
  }

  /** The exported config object built from the environment value. */
  function Make(env: Option<string>): (c: Config)
    ensures c.baseUrl == BaseUrl(env)
    ensures c.adminApi == c.baseUrl + "/api/admin"
    ensures c.restaurantApi == c.adminApi + "/restaurants"
  {
    var base := BaseUrl(env);
    var c := Config(base, base + "/api/admin", base + "/api/admin/restaurants");
    assert c.restaurantApi == (base + "/api/admin") + "/restaurants";
    c
  }

  /** A configuration as the module builds it. */
  predicate WellFormed(c: Config) {
    && c.adminApi == c.baseUrl + "/api/admin"
    && c.restaurantApi == c.adminApi + "/restaurants"
  }

  /** Without an environment value every root starts at the production URL. */
  lemma DefaultRoots()
    ensures Make(None).adminApi == ProductionUrl + "/api/admin"
    ensures Make(Some("")).baseUrl == ProductionUrl
  {
  }
}
