/**
 * The trading facade: validates the order book or currency a caller names,
 * assembles the endpoint and payload of each operation, and hands them to the
 * transport.  A rejected name is raised before the transport is called.
 */
module Quadriga {
  import opened Wrappers
  import opened Json
  import opened Http
  import opened Exceptions
  import opened Rest

  const OrderBooks: set<string> := {"btc_cad", "btc_usd", "eth_cad", "eth_usd"}
  const CryptoCurrencies: set<string> := {"bitcoin", "ether"}

  /** A book argument the facade lets through: omitted, or one of the order books. */
  predicate BookAccepted(book: Option<string>)
  {
    book.None? || book.value in OrderBooks
  }

  class QuadrigaClient {
    const rest: RestClient
    const clientId: string
    const defaultBook: string

    /** What construction establishes: the default book is one of the order books. */
    ghost predicate Valid()
    {
      defaultBook in OrderBooks
    }

    /** Sets the fields for a default book that `New` has already accepted. */
    constructor(apiKey: string, apiSecret: string, clientId: string, defaultBook: string,
                hmacSha256Hex: (string, string) -> string)
      requires defaultBook in OrderBooks
      ensures Valid()
      ensures rest.apiKey == apiKey && rest.hmacKey == apiSecret && rest.clientId == clientId
      ensures rest.hmacSha256Hex == hmacSha256Hex && rest.httpSuccess == SuccessCodes()
      ensures this.clientId == clientId && this.defaultBook == defaultBook
    {
      rest := new RestClient(apiKey, apiSecret, clientId, hmacSha256Hex);
      this.clientId := clientId;
      this.defaultBook := defaultBook;
    }

    /**
     * `QuadrigaClient(api_key, api_secret, client_id, default_book='eth_cad')`:
     * the default book goes through `_verify_book`, so a book outside the set
     * raises and no client is made.
     */
    static method New(apiKey: string, apiSecret: string, clientId: string,
                      hmacSha256Hex: (string, string) -> string, defaultBook: string := "eth_cad")
      returns (r: Outcome<QuadrigaClient>)
      ensures !r.Crashed?
      ensures r.Raised? <==> defaultBook !in OrderBooks
      ensures r.Raised? ==> r.error == InvalidOrderBookError(defaultBook, OrderBooks)
      ensures r.Returned? ==> fresh(r.value) && r.value.Valid()
      ensures r.Returned? ==> r.value.defaultBook == defaultBook && r.value.clientId == clientId
      ensures r.Returned? ==> r.value.rest.apiKey == apiKey && r.value.rest.hmacKey == apiSecret
      ensures r.Returned? ==> r.value.rest.clientId == clientId && r.value.rest.hmacSha256Hex == hmacSha256Hex
      ensures r.Returned? ==> r.value.rest.httpSuccess == SuccessCodes()
    {
      if defaultBook !in OrderBooks {
        r := Raised(InvalidOrderBookError(defaultBook, OrderBooks));
      } else {
        var client := new QuadrigaClient(apiKey, apiSecret, clientId, defaultBook, hmacSha256Hex);
        r := Returned(client);
      }
    }

    /**
     * `_verify_book`: an omitted book is the default, an order book is itself,
     * anything else is rejected.
     */
    function VerifyBook(book: Option<string>): (r: Outcome<string>)
      ensures !r.Crashed?
      ensures r.Returned? <==> BookAccepted(book)
      ensures r.Returned? ==> r.value == book.GetOr(defaultBook)
      ensures r.Raised? ==> r.error == InvalidOrderBookError(book.value, OrderBooks)
      ensures r.Returned? && Valid() ==> r.value in OrderBooks
    {
      match book
      case None => Returned(defaultBook)
      case Some(b) => if b !in OrderBooks then Raised(InvalidOrderBookError(b, OrderBooks)) else Returned(b)
    }

    /** `_verify_currency`: returns for bitcoin and ether, raises for anything else. */
    function VerifyCurrency(currency: string): (r: Outcome<()>)
      ensures !r.Crashed?
      ensures r.Returned? <==> currency == "bitcoin" || currency == "ether"
      ensures r.Raised? ==> r.error == InvalidCurrencyError(currency, CryptoCurrencies)
    {
      if currency !in CryptoCurrencies then Raised(InvalidCurrencyError(currency, CryptoCurrencies)) else Returned(())
    }

    /** `get_summary`: GET /ticker with {book}. */
    method GetSummary(network: Request -> Response, book: Option<string> := None) returns (r: Outcome<Json>)
      ensures !BookAccepted(book) ==> r == Raised(InvalidOrderBookError(book.value, OrderBooks))
      ensures BookAccepted(book) ==> r == rest.HandleResponse(network(GetRequest(
        EndpointPrefix + "/ticker", Some(map["book" := JStr(book.GetOr(defaultBook))]))))
    {
      var checked := VerifyBook(book);
      if checked.Raised? {
        return Raised(checked.error);
      }
      r := rest.Get(network, "/ticker", Some(map["book" := JStr(checked.value)]));
    }

    /** `get_public_orders`: GET /order_book with {book, group} where group is 1 or 0. */
    method GetPublicOrders(network: Request -> Response, group: bool := true, book: Option<string> := None)
      returns (r: Outcome<Json>)
      ensures !BookAccepted(book) ==> r == Raised(InvalidOrderBookError(book.value, OrderBooks))
      ensures BookAccepted(book) ==> r == rest.HandleResponse(network(GetRequest(
        EndpointPrefix + "/order_book",
        Some(map["book" := JStr(book.GetOr(defaultBook)), "group" := JNum(if group then 1 else 0)]))))
    {
      var checked := VerifyBook(book);
      if checked.Raised? {
        return Raised(checked.error);
      }
      r := rest.Get(network, "/order_book", Some(map["book" := JStr(checked.value), "group" := JNum(if group then 1 else 0)]));
    }

    /** `get_public_trades`: GET /transactions with {book, time}; `time` is passed through unchecked. */
    method GetPublicTrades(network: Request -> Response, time: string := "hour", book: Option<string> := None)
      returns (r: Outcome<Json>)
      ensures !BookAccepted(book) ==> r == Raised(InvalidOrderBookError(book.value, OrderBooks))
      ensures BookAccepted(book) ==> r == rest.HandleResponse(network(GetRequest(
        EndpointPrefix + "/transactions", Some(map["book" := JStr(book.GetOr(defaultBook)), "time" := JStr(time)]))))
    {
      var checked := VerifyBook(book);
      if checked.Raised? {
        return Raised(checked.error);
      }
      r := rest.Get(network, "/transactions", Some(map["book" := JStr(checked.value), "time" := JStr(time)]));
    }

    /** Posts a payload the facade built itself, in a dict no caller shares. */
    method PostNew(network: Request -> Response, nonce: int, endpoint: string, payload: map<string, Json>)
      returns (r: Outcome<Json>)
      ensures r == rest.HandleResponse(network(PostRequest(EndpointPrefix + endpoint, rest.SignedPayload(payload, nonce))))
    {
      var d := new Dict(payload);
      r := rest.Post(network, nonce, endpoint, d);
    }

    /** `get_orders`: POST /open_orders with {book}. */
    method GetOrders(network: Request -> Response, nonce: int, book: Option<string> := None) returns (r: Outcome<Json>)
      ensures !BookAccepted(book) ==> r == Raised(InvalidOrderBookError(book.value, OrderBooks))
      ensures BookAccepted(book) ==> r == rest.HandleResponse(network(PostRequest(
        EndpointPrefix + "/open_orders", rest.SignedPayload(map["book" := JStr(book.GetOr(defaultBook))], nonce))))
    {
      var checked := VerifyBook(book);
      if checked.Raised? {
        return Raised(checked.error);
      }
      r := PostNew(network, nonce, "/open_orders", map["book" := JStr(checked.value)]);
    }

    /** `get_trades`: POST /user_transactions with {book, limit, offset, sort}; 100, 0 and "desc" by default. */
    method GetTrades(network: Request -> Response, nonce: int, limit: int := 100, offset: int := 0,
                     sort: string := "desc", book: Option<string> := None)
      returns (r: Outcome<Json>)
      ensures !BookAccepted(book) ==> r == Raised(InvalidOrderBookError(book.value, OrderBooks))
      ensures BookAccepted(book) ==> r == rest.HandleResponse(network(PostRequest(
        EndpointPrefix + "/user_transactions",
        rest.SignedPayload(map["book" := JStr(book.GetOr(defaultBook)), "limit" := JNum(limit),
                               "offset" := JNum(offset), "sort" := JStr(sort)], nonce))))
    {
      var checked := VerifyBook(book);
      if checked.Raised? {
        return Raised(checked.error);
      }
      r := PostNew(network, nonce, "/user_transactions",
        map["book" := JStr(checked.value), "limit" := JNum(limit), "offset" := JNum(offset), "sort" := JStr(sort)]);
    }

    /** `get_balance`: POST /balance with no payload of its own. */
    method GetBalance(network: Request -> Response, nonce: int) returns (r: Outcome<Json>)
      ensures r == rest.HandleResponse(network(PostRequest(EndpointPrefix + "/balance", rest.SignedPayload(map[], nonce))))
    {
      r := rest.Post(network, nonce, "/balance");
    }

    /** `buy_market_order`: POST /buy with {book, amount}. */
    method BuyMarketOrder(network: Request -> Response, nonce: int, amount: Json, book: Option<string> := None)
      returns (r: Outcome<Json>)
      ensures !BookAccepted(book) ==> r == Raised(InvalidOrderBookError(book.value, OrderBooks))
      ensures BookAccepted(book) ==> r == rest.HandleResponse(network(PostRequest(
        EndpointPrefix + "/buy", rest.SignedPayload(map["book" := JStr(book.GetOr(defaultBook)), "amount" := amount], nonce))))
    {
      var checked := VerifyBook(book);
      if checked.Raised? {
        return Raised(checked.error);
      }
      r := PostNew(network, nonce, "/buy", map["book" := JStr(checked.value), "amount" := amount]);
    }

    /** `buy_limit_order`: POST /buy with {book, amount, price}. */
    method BuyLimitOrder(network: Request -> Response, nonce: int, amount: Json, price: Json, book: Option<string> := None)
      returns (r: Outcome<Json>)
      ensures !BookAccepted(book) ==> r == Raised(InvalidOrderBookError(book.value, OrderBooks))
      ensures BookAccepted(book) ==> r == rest.HandleResponse(network(PostRequest(
        EndpointPrefix + "/buy",
        rest.SignedPayload(map["book" := JStr(book.GetOr(defaultBook)), "amount" := amount, "price" := price], nonce))))
    {
      var checked := VerifyBook(book);
      if checked.Raised? {
        return Raised(checked.error);
      }
      r := PostNew(network, nonce, "/buy", map["book" := JStr(checked.value), "amount" := amount, "price" := price]);
    }

    /** `sell_market_order`: POST /sell with {book, amount}. */
    method SellMarketOrder(network: Request -> Response, nonce: int, amount: Json, book: Option<string> := None)
      returns (r: Outcome<Json>)
      ensures !BookAccepted(book) ==> r == Raised(InvalidOrderBookError(book.value, OrderBooks))
      ensures BookAccepted(book) ==> r == rest.HandleResponse(network(PostRequest(
        EndpointPrefix + "/sell", rest.SignedPayload(map["book" := JStr(book.GetOr(defaultBook)), "amount" := amount], nonce))))
    {
      var checked := VerifyBook(book);
      if checked.Raised? {
        return Raised(checked.error);
      }
      r := PostNew(network, nonce, "/sell", map["book" := JStr(checked.value), "amount" := amount]);
    }

    /** `sell_limit_order`: POST /sell with {book, amount, price}. */
    method SellLimitOrder(network: Request -> Response, nonce: int, amount: Json, price: Json, book: Option<string> := None)
      returns (r: Outcome<Json>)
      ensures !BookAccepted(book) ==> r == Raised(InvalidOrderBookError(book.value, OrderBooks))
      ensures BookAccepted(book) ==> r == rest.HandleResponse(network(PostRequest(
        EndpointPrefix + "/sell",
        rest.SignedPayload(map["book" := JStr(book.GetOr(defaultBook)), "amount" := amount, "price" := price], nonce))))
    {
      var checked := VerifyBook(book);
      if checked.Raised? {
        return Raised(checked.error);
      }
      r := PostNew(network, nonce, "/sell", map["book" := JStr(checked.value), "amount" := amount, "price" := price]);
    }

    /** `lookup_order`: POST /lookup_order with {id}; the id's format is not checked. */
    method LookupOrder(network: Request -> Response, nonce: int, orderId: string) returns (r: Outcome<Json>)
      ensures r == rest.HandleResponse(network(PostRequest(
        EndpointPrefix + "/lookup_order", rest.SignedPayload(map["id" := JStr(orderId)], nonce))))
    {
      r := PostNew(network, nonce, "/lookup_order", map["id" := JStr(orderId)]);
    }

    /** `cancel_order`: POST /cancel_order with {id}; the id's format is not checked. */
    method CancelOrder(network: Request -> Response, nonce: int, orderId: string) returns (r: Outcome<Json>)
      ensures r == rest.HandleResponse(network(PostRequest(
        EndpointPrefix + "/cancel_order", rest.SignedPayload(map["id" := JStr(orderId)], nonce))))
    {
      r := PostNew(network, nonce, "/cancel_order", map["id" := JStr(orderId)]);
    }

    /** `get_deposit_address`: POST /bitcoin_deposit_address or /ether_deposit_address with no payload of its own. */
    method GetDepositAddress(network: Request -> Response, nonce: int, currency: string) returns (r: Outcome<Json>)
      ensures currency !in CryptoCurrencies ==> r == Raised(InvalidCurrencyError(currency, CryptoCurrencies))
      ensures currency == "bitcoin" ==> r == rest.HandleResponse(network(PostRequest(
        EndpointPrefix + "/bitcoin_deposit_address", rest.SignedPayload(map[], nonce))))
      ensures currency == "ether" ==> r == rest.HandleResponse(network(PostRequest(
        EndpointPrefix + "/ether_deposit_address", rest.SignedPayload(map[], nonce))))
    {
      var checked := VerifyCurrency(currency);
      if checked.Raised? {
        return Raised(checked.error);
      }
      if currency == "bitcoin" {
        r := rest.Post(network, nonce, "/bitcoin_deposit_address");
      } else {
        r := rest.Post(network, nonce, "/ether_deposit_address");
      }
    }

    /** `withdraw`: POST /bitcoin_withdrawal or /ether_withdrawal with {address, amount}. */
    method Withdraw(network: Request -> Response, nonce: int, currency: string, amount: Json, address: string)
      returns (r: Outcome<Json>)
      ensures currency !in CryptoCurrencies ==> r == Raised(InvalidCurrencyError(currency, CryptoCurrencies))
      ensures currency == "bitcoin" ==> r == rest.HandleResponse(network(PostRequest(
        EndpointPrefix + "/bitcoin_withdrawal", rest.SignedPayload(map["address" := JStr(address), "amount" := amount], nonce))))
      ensures currency == "ether" ==> r == rest.HandleResponse(network(PostRequest(
        EndpointPrefix + "/ether_withdrawal", rest.SignedPayload(map["address" := JStr(address), "amount" := amount], nonce))))
    {
      var checked := VerifyCurrency(currency);
      if checked.Raised? {
        return Raised(checked.error);
      }
      var payload := map["address" := JStr(address), "amount" := amount];
      if currency == "bitcoin" {
        r := PostNew(network, nonce, "/bitcoin_withdrawal", payload);
      } else {
        r := PostNew(network, nonce, "/ether_withdrawal", payload);
      }
    }
  }
}

/** Calls that leave out the optional arguments, as the client's test suite makes them. */
module QuadrigaDefaults {
  import opened Wrappers
  import opened Json
  import opened Http
  import opened Exceptions
  import opened Rest
  import opened Quadriga

  /** `QuadrigaClient(key, secret, client_id)` starts on the eth_cad book. */
  method ConstructWithDefaultBook(apiKey: string, apiSecret: string, clientId: string,
                                  hmacSha256Hex: (string, string) -> string)
    returns (r: Outcome<QuadrigaClient>)
    ensures r.Returned? && r.value.defaultBook == "eth_cad"
  {
    r := QuadrigaClient.New(apiKey, apiSecret, clientId, hmacSha256Hex);
  }

  /** `get_public_orders()` groups (group=1) on the default book. */
  method PublicOrdersDefaults(client: QuadrigaClient, network: Request -> Response) returns (r: Outcome<Json>)
    ensures r == client.rest.HandleResponse(network(GetRequest(
      EndpointPrefix + "/order_book", Some(map["book" := JStr(client.defaultBook), "group" := JNum(1)]))))
  {
    r := client.GetPublicOrders(network);
  }

  /** `get_public_trades()` asks for the last hour on the default book. */
  method PublicTradesDefaults(client: QuadrigaClient, network: Request -> Response) returns (r: Outcome<Json>)
    ensures r == client.rest.HandleResponse(network(GetRequest(
      EndpointPrefix + "/transactions", Some(map["book" := JStr(client.defaultBook), "time" := JStr("hour")]))))
  {
    r := client.GetPublicTrades(network);
  }

  /** `get_trades()` sends limit 100, offset 0, sort "desc" on the default book. */
  method TradesDefaults(client: QuadrigaClient, network: Request -> Response, nonce: int) returns (r: Outcome<Json>)
    ensures r == client.rest.HandleResponse(network(PostRequest(
      EndpointPrefix + "/user_transactions",
      client.rest.SignedPayload(map["book" := JStr(client.defaultBook), "limit" := JNum(100),
                                    "offset" := JNum(0), "sort" := JStr("desc")], nonce))))
  {
    r := client.GetTrades(network, nonce);
  }
}
