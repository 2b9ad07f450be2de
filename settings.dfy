/**
 * The configuration record and the defaults `ConfigApp::new` writes on first start:
 * five download-server URL templates, the selected server, the search backend and
 * the fetch and download counts.
 */
module Settings {

  import opened Numbers
  import opened Text

  datatype Config = Config(
    clientId: u64,
    clientSecret: string,
    searchClient: string,
    songsPath: string,
    numberOfFetch: u32,
    selectedServer: string,
    numberOfSimultaneousDownloads: u64,
    server: map<string, string>)

  /** The search backends the configuration window offers. */
  const BackendOptions: seq<string> := ["nerinyan", "osu", "osu_api"]

  const DefaultServerNames: set<string> := {"beatconnect", "nerinyan", "osu_direct", "catboy", "osu_ppy"}

  /** `ConfigApp::new`: the server table is built by five inserts, then the record. */
  method NewConfig() returns (config: Config)
    ensures config.server.Keys == DefaultServerNames
    ensures forall name | name in config.server :: Occurs(Placeholder, config.server[name])
    ensures config.selectedServer == "nerinyan" && config.selectedServer in config.server
    ensures config.searchClient == "nerinyan" && config.searchClient in BackendOptions
    ensures config.numberOfFetch == 250 && config.numberOfFetch % 50 == 0
    ensures config.numberOfSimultaneousDownloads == 5
    ensures config.clientId == 0 && config.clientSecret == "" && config.songsPath == ""
  {
    var server: map<string, string> := map[];
    server := server["beatconnect" := "https://beatconnect.io/b/" + Placeholder];
    server := server["nerinyan" := "https://api.nerinyan.moe/d/" + Placeholder];
    server := server["osu_direct" := "https://osu.direct/api/d/" + Placeholder];
    server := server["catboy" := "https://catboy.best/d/" + Placeholder];
    server := server["osu_ppy" := "https://osu.ppy.sh/beatmapsets/" + Placeholder + "/download"];
    OccursInMiddle("https://beatconnect.io/b/", Placeholder, "");
    assert "https://beatconnect.io/b/" + Placeholder + "" == "https://beatconnect.io/b/" + Placeholder;
    OccursInMiddle("https://api.nerinyan.moe/d/", Placeholder, "");
    assert "https://api.nerinyan.moe/d/" + Placeholder + "" == "https://api.nerinyan.moe/d/" + Placeholder;
    OccursInMiddle("https://osu.direct/api/d/", Placeholder, "");
    assert "https://osu.direct/api/d/" + Placeholder + "" == "https://osu.direct/api/d/" + Placeholder;
    OccursInMiddle("https://catboy.best/d/", Placeholder, "");
    assert "https://catboy.best/d/" + Placeholder + "" == "https://catboy.best/d/" + Placeholder;
    OccursInMiddle("https://osu.ppy.sh/beatmapsets/", Placeholder, "/download");
    config := Config(
      clientId := 0,
      clientSecret := "",
      songsPath := "",
      numberOfFetch := 250,
      selectedServer := "nerinyan",
      numberOfSimultaneousDownloads := 5,
      server := server,
      searchClient := "nerinyan");
  }
}
