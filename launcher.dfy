/** `create_search_client`: the configured backend name selects the search client. */
module Launcher {

  import opened Wrappers
  import opened Numbers
  import opened Settings

  /** A rosu client authenticated with the configured credentials. */
  datatype RosuClient = RosuClient(clientId: u64)

  datatype SearchClientKind = NerinyanClient | OsuClient | OsuApiClient(client: RosuClient)

  datatype AppError = ClientCreationError(message: string)

  /** `Osu::new(client_id, client_secret)`, run to completion: a client or the library's error text. */
  type Connect = (u64, string) -> Result<RosuClient, string>

  function CreateSearchClient(config: Config, connect: Connect): (r: Result<SearchClientKind, AppError>)
    ensures config.searchClient == "nerinyan" ==> r == Success(NerinyanClient)
    ensures config.searchClient == "osu" ==> r == Success(OsuClient)
    ensures config.searchClient == "osu_api" ==>
      r == match connect(config.clientId, config.clientSecret)
           case Success(c) => Success(OsuApiClient(c))
           case Failure(e) => Failure(ClientCreationError(e))
  {
    match config.searchClient
    case "nerinyan" => Success(NerinyanClient)
    case "osu" => Success(OsuClient)
    case "osu_api" =>
      (match connect(config.clientId, config.clientSecret)
       case Success(c) => Success(OsuApiClient(c))
       case Failure(e) => Failure(ClientCreationError(e)))
    case _ => Failure(ClientCreationError("Unknown client type"))
  }

  /**
   * The dispatcher and the configuration window agree: exactly the offered backend names
   * are accepted (the `osu_api` one when its credentials connect), and any other name is
   * refused as an unknown client type.
   */
  lemma BackendOptionsAccepted(config: Config, connect: Connect)
    ensures CreateSearchClient(config, connect).Success? <==>
      config.searchClient in BackendOptions
      && (config.searchClient == "osu_api" ==> connect(config.clientId, config.clientSecret).Success?)
    ensures config.searchClient !in BackendOptions ==>
      CreateSearchClient(config, connect) == Failure(ClientCreationError("Unknown client type"))
  {
  }

  /** On first start the default configuration selects the Nerinyan client. */
  method DefaultSearchClient(connect: Connect) returns (r: Result<SearchClientKind, AppError>)
    ensures r == Success(NerinyanClient)
  {
    var config := NewConfig();
    r := CreateSearchClient(config, connect);
  }
}
