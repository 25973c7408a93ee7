/** Build-time configuration mappers: which browser and which manifest version
    the extension driver is created for. `_env` is modelled as a record. */
module Env {

  /** The build-time `_env` record. */
  datatype BuildEnv = BuildEnv(
    nodeEnv: string,
    manifestVersion: string,
    browserType: string,
    extensionType: string,
    isEncodeScripts: string)

  /** The browser tags the extension driver accepts. */
  datatype Browser = Chrome | Firefox | Edge

  /** `detectBrowser`: Firefox and Edge by name, Chrome for everything else. */
  function DetectBrowser(env: BuildEnv): (b: Browser)
    ensures b == Firefox <==> env.browserType == "firefox"
    ensures b == Edge <==> env.browserType == "edge"
    ensures b == Chrome <==> env.browserType != "firefox" && env.browserType != "edge"
  {
    if env.browserType == "chrome" then Chrome
    else if env.browserType == "firefox" then Firefox
    else if env.browserType == "edge" then Edge
    else Chrome
  }

  /** `detectVersion`: "2" only for "2", "1" for every other value. */
  function DetectVersion(env: BuildEnv): (v: string)
    ensures v == "1" || v == "2"
    ensures v == "2" <==> env.manifestVersion == "2"
  {
    if env.manifestVersion == "1" then env.manifestVersion
    else if env.manifestVersion == "2" then env.manifestVersion
    else "1"
  }

  /** The three recognised browser names map to their own tags. */
  lemma DetectBrowserKnownNames(env: BuildEnv)
    ensures env.browserType == "chrome" ==> DetectBrowser(env) == Chrome
    ensures env.browserType == "firefox" ==> DetectBrowser(env) == Firefox
    ensures env.browserType == "edge" ==> DetectBrowser(env) == Edge
  {
  }

  /** A manifest version other than "1" or "2" (for example "3") falls back to "1". */
  lemma DetectVersionFallback(env: BuildEnv)
    requires env.manifestVersion != "1" && env.manifestVersion != "2"
    ensures DetectVersion(env) == "1"
  {
  }
}
