/** The settings the modelled code reads (backend/app/core/config.py). */
module Config {
  import opened Wrappers
  import Text

  /** The subset of `Settings` the modelled routes consult. */
  datatype Settings = Settings(
    jwtSecretKey: string,
    jwtAlgorithm: string,
    jwtExpireMinutes: int,
    env: string,
    cookieName: string,
    cookieDomain: Option<string>,
    openAiApiKey: string)

  /** The declared defaults, used when the environment sets nothing. */
  const Defaults := Settings("change_me", "HS256", 60, "development", "access_token", None, "")

  /** `settings.ENV.lower() == "production"`. */
  predicate IsProduction(s: Settings) {
    Text.Lower(s.env) == "production"
  }

  /** `settings.COOKIE_DOMAIN` is set and non-empty (Python truthiness). */
  predicate HasCookieDomain(s: Settings) {
    s.cookieDomain.Some? && s.cookieDomain.value != ""
  }
}
