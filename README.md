# QuadrigaCX client: signed transport and trading facade

This project models the Python client library for the QuadrigaCX exchange API (version 2).
It covers two parts:

- **The transport.** `RestClient` signs POST requests with HMAC-SHA256 over the nonce, the
  client id and the API key. It writes `key`, `nonce` and `signature` into the POST payload,
  sends GETs unsigned, and classifies every response.
- **The facade.** `QuadrigaClient` checks the order book or currency it is given against fixed
  sets. It then builds each operation's endpoint and payload and calls the transport.

## How the classification works

A response is classified in this order:

1. A status outside 200..209 raises `"[HTTP <code>] <reason>"`.
2. A body that does not decode as JSON raises `"[HTTP <code>] response body: <text>"`.
3. A decoded dict with an `error` dict raises `"[HTTP <code>][ERR <code or ?>] <message or 'no error message'>"`.
   The embedded code becomes the error code. A null code is Python's None, so the error then has
   no code.
4. Anything else is returned unchanged.

The model keeps Python's behaviour for bodies that are not dicts:

- `'error' in body` is a substring test on strings and an element test on lists.
- On a number, boolean or null, that test raises `TypeError`.
- Indexing a list or string for `'error'` raises `TypeError`.
- Calling `.get` on an `error` member that is not a dict raises `AttributeError`.

These escaping built-in errors are the `Crashed` outcome.

## Modules

- `Wrappers`: the `Option` datatype.
- `Decimal`: Python's `str()` of an int, with a parser and the round-trip lemma.
- `Json`: decoded JSON values. It models Python's `in`, `dict.get` and `str()` on them, and the
  mutable `Dict` that `post` fills in.
- `Http`: the `Response` the client reads and the `Request` it sends.
- `Exceptions`: the `QuadrigaError` hierarchy and `Outcome`. Each Python call ends in one of
  three ways: it returns, it raises a library error, or it lets a built-in error escape.
- `Rest`: the transport (`quadriga/rest_client.py`).
- `RestFixtures`: the transport's fixtures from tests.py.
- `Quadriga`: the facade (`quadriga/__init__.py`).
- `QuadrigaDefaults`: calls that rely on the facade's default arguments.

## What is passed in instead of computed

- **The network** is a parameter, `network: Request -> Response`. Every transport method's
  contract says which `Request` it gives to the network and how the `Response` that comes back
  is classified.
- **The nonce** is an `int` parameter of every POST.
- **HMAC-SHA256** is `hmacSha256Hex`, a deterministic function given at construction and not
  interpreted. The UTF-8 encoding of the key and the message happens inside it.

## Model

| member | source | states |
|---|---|---|
| `Decimal.IntToString` | quadriga/rest_client.py:45 | `str(nonce)`. A minus sign appears exactly for negative integers; every other character is a digit. |
| `Decimal.NatToString` | quadriga/rest_client.py:45 | The digits of a non-negative integer are all decimal digits, with no leading zero. |
| `Decimal.ParseIntToString` | quadriga/rest_client.py:45 | Parsing the decimal rendering gives back the integer. |
| `Decimal.IntToStringInjective` | quadriga/rest_client.py:45 | Different integers render differently. |
| `Json.Contains` | quadriga/rest_client.py:79 | `'error' in body`. It is a key test on dicts and an element test on lists. On a string it is true exactly when the needle occurs at some index of the string. Python raises TypeError (None here) exactly for numbers, booleans and null. |
| `Json.IsSubstringOccurs` | quadriga/rest_client.py:79 | The left-to-right scan behind `in` on strings succeeds exactly when the needle occurs at some index. |
| `Json.Str` | quadriga/rest_client.py:83-87 | `str()` inside `format`: a string is itself, an integer's text parses back to it, booleans are True/False and null is None. |
| `Json.DictGet` | quadriga/rest_client.py:80-86 | `dict.get(key, default)`. It gives the stored value when the key is present and the default otherwise. |
| `Exceptions.NewRequestError` | quadriga/exceptions.py:11-18 | A RequestError copies url, text (as body), headers and status code (as httpCode) from the response. It keeps the message as errorMsg, which is its string form. Its error code is None unless one is given. |
| `Rest.Range` | quadriga/rest_client.py:35 | `range(lo, hi)` as a set. It holds exactly the integers `lo <= k < hi`, and there are `hi - lo` of them. |
| `Rest.SuccessCodes` | quadriga/rest_client.py:35 | `range(200, 210)`: a code is a success exactly when 200 <= code < 210. |
| `Rest.SuccessCodesNotTwoHundredBand` | quadriga/rest_client.py:35 | The success set has exactly ten codes. 199, 210 and 299 are not in it. |
| `Rest.RestClient.constructor` | quadriga/rest_client.py:17-35 | Stores the API key, the secret (as the HMAC key), the client id and the HMAC function. Sets the success set to 200..209. |
| `Rest.SignedMessage` | quadriga/rest_client.py:45 | The signed text has the decimal nonce first, the client id next and the API key last, with nothing between them. |
| `Rest.RestClient.ComputeSignature` | quadriga/rest_client.py:37-50 | The signature is the HMAC-SHA256 hex digest, keyed by the secret, of the decimal nonce, the client id and the API key. |
| `Rest.SignedMessageSplits` | quadriga/rest_client.py:45 | The signed message splits into the decimal nonce, which parses back to the nonce, followed by client id and then API key. |
| `Rest.SignedMessageInjective` | quadriga/rest_client.py:45 | For fixed credentials, equal signed messages imply equal nonces. |
| `Rest.SignedMessageUndelimited` | quadriga/rest_client.py:45 | The message has no delimiter. Nonce 12 with client id "3abc" signs the same text as nonce 123 with "abc". |
| `Rest.SignatureDeterministic` | quadriga/rest_client.py:37-50 | Two clients with equal secret, client id, API key and HMAC function compute the same signature for a nonce. |
| `Rest.RestClient.SignedPayload` | quadriga/rest_client.py:121-125 | The payload after signing has exactly the caller's keys plus key, nonce and signature. Every other caller value is unchanged. The three fields are the API key, the nonce and the signature, overwriting any caller values for those names. |
| `Rest.RestClient.HandleResponse` | quadriga/rest_client.py:52-90 | A returned body comes only from a success status and is the decoded body unchanged. Every raised error is a RequestError carrying the response's url, text, headers and status. It has an error code exactly when the status succeeded, the body decoded to a dict with an `error` dict, and that dict's code is not null. A null code is never stored as a code. |
| `Rest.CheckBody` | quadriga/rest_client.py:79-90 | The check of a decoded body returns that body unchanged. It raises only for a dict whose `error` member is a dict. The raised error's code is the embedded code, or '?' when absent, or no code when the embedded code is null. Its message is the '[HTTP ..][ERR ..] ..' text. |
| `Rest.StatusMessage` | quadriga/rest_client.py:65-66 | '[HTTP {}] {}': the status code parses back out of the message, and the reason follows the tag. |
| `Rest.BodyMessage` | quadriga/rest_client.py:74-75 | '[HTTP {}] response body: {}': the status code parses back out of the message, and the raw text follows the tag. |
| `Rest.ErrorCode` | quadriga/rest_client.py:80 | `body['error'].get('code', '?')`: the stored code when there is one, '?' otherwise. |
| `Rest.RaisedErrorCode` | quadriga/rest_client.py:80-88 | The `error_code` the RequestError holds: no code exactly when the embedded code is JSON null (Python's None), the embedded code or '?' otherwise. |
| `Rest.ErrorMessage` | quadriga/rest_client.py:83-87 | '[HTTP {}][ERR {}] {}': the status code parses back out of the message, and the tag is followed by the error code and the embedded message or 'no error message'. |
| `Rest.HandleFailedStatus` | quadriga/rest_client.py:61-68 | A status outside the success set raises `"[HTTP <code>] <reason>"` with no error code, whatever the body. |
| `Rest.HandleUndecodableBody` | quadriga/rest_client.py:69-77 | A success status with an undecodable body raises `"[HTTP <code>] response body: <text>"` with no error code. |
| `Rest.HandleEmbeddedError` | quadriga/rest_client.py:79-89 | For a decoded dict whose `error` member is a dict, the error code is `error.code`, or '?' when absent, or none when `error.code` is null. The message is `"[HTTP <code>][ERR <error code>] <error.message or 'no error message'>"`. |
| `Rest.HandlePlainBody` | quadriga/rest_client.py:79-90 | A decoded dict, list or string is returned unchanged exactly when `'error' in body` is false. |
| `Rest.HandleCrashes` | quadriga/rest_client.py:79-86 | TypeError escapes for a decoded number, boolean or null. It also escapes for a list or string containing "error". AttributeError escapes for an `error` member that is not a dict. |
| `Rest.HandleReturnsIff` | quadriga/rest_client.py:52-90 | A value is returned exactly when the status succeeded, the body decoded and `'error' in body` is false. |
| `Rest.RaisedMessageNamesStatus` | quadriga/rest_client.py:62-89 | The message of every RequestError the classifier raises starts with "[HTTP <code>]". The response's status code parses back from it. |
| `Rest.RestClient.Get` | quadriga/rest_client.py:92-106 | Sends one unsigned GET to prefix + endpoint, with the parameters unchanged. Its result is the classification of the response. |
| `Rest.RestClient.Post` | quadriga/rest_client.py:108-131 | The caller's dict, if there is one, is changed in place into the signed payload. With no dict, the signed payload of an empty dict is sent. Sends one POST of it to prefix + endpoint and classifies the response. |
| `RestFixtures.EmbeddedErrorFixture` | tests.py:120-133 | HTTP 200 with `{"error": {"code": "123", "message": "failed"}}` raises with error code "123" and message "[HTTP 200][ERR 123] failed". |
| `RestFixtures.NullErrorCodeFixture` | quadriga/rest_client.py:79-89 | HTTP 200 with `{"error": {"code": null}}` raises "[HTTP 200][ERR None] no error message" with no error code. |
| `RestFixtures.FailedStatusFixture` | tests.py:136-148 | HTTP 400 with reason "test_reason" raises "[HTTP 400] test_reason" with no error code. |
| `RestFixtures.UndecodableFixture` | tests.py:151-164 | HTTP 200 with undecodable text "foo" raises "[HTTP 200] response body: foo" with no error code. |
| `RestFixtures.SignedMessageFixture` | tests.py:14-17 | Nonce 1491481256000 with test_client_id and test_api_key signs "1491481256000test_client_idtest_api_key". |
| `Quadriga.QuadrigaClient.constructor` | quadriga/__init__.py:45-51 | Takes a default book that is an order book and establishes `Valid()`. Builds the transport from the credentials and stores the client id and default book. |
| `Quadriga.QuadrigaClient.New` | quadriga/__init__.py:28-51 | Construction raises InvalidOrderBookError exactly when the default book is not an order book. Otherwise the new client has that default book and the given credentials. |
| `Quadriga.QuadrigaClient.VerifyBook` | quadriga/__init__.py:61-77 | Omitted, it gives the current default book. A member of {btc_cad, btc_usd, eth_cad, eth_usd} is returned as given. Anything else raises InvalidOrderBookError naming it and the set. On a valid client the result is always an order book. |
| `Quadriga.QuadrigaClient.VerifyCurrency` | quadriga/__init__.py:79-90 | Returns exactly for "bitcoin" and "ether". Anything else raises InvalidCurrencyError. |
| `Quadriga.QuadrigaClient.GetSummary` | quadriga/__init__.py:92-106 | A rejected book raises before the network is used. Otherwise it sends GET /ticker with {book}. |
| `Quadriga.QuadrigaClient.GetPublicOrders` | quadriga/__init__.py:108-124 | A rejected book raises first. Otherwise it sends GET /order_book with {book, group}, where group is 1 for true and 0 for false. |
| `Quadriga.QuadrigaClient.GetPublicTrades` | quadriga/__init__.py:126-142 | A rejected book raises first. Otherwise it sends GET /transactions with {book, time}. |
| `Quadriga.QuadrigaClient.GetOrders` | quadriga/__init__.py:144-158 | A rejected book raises first. Otherwise it sends a signed POST /open_orders with {book}. |
| `Quadriga.QuadrigaClient.GetTrades` | quadriga/__init__.py:160-185 | A rejected book raises first. Otherwise it sends a signed POST /user_transactions with {book, limit, offset, sort}. |
| `Quadriga.QuadrigaClient.GetBalance` | quadriga/__init__.py:187-194 | Sends a signed POST /balance whose payload is only key, nonce and signature. |
| `Quadriga.QuadrigaClient.BuyMarketOrder` | quadriga/__init__.py:196-213 | A rejected book raises first. Otherwise it sends a signed POST /buy with {book, amount}. |
| `Quadriga.QuadrigaClient.BuyLimitOrder` | quadriga/__init__.py:215-233 | A rejected book raises first. Otherwise it sends a signed POST /buy with {book, amount, price}. |
| `Quadriga.QuadrigaClient.SellMarketOrder` | quadriga/__init__.py:235-252 | A rejected book raises first. Otherwise it sends a signed POST /sell with {book, amount}. |
| `Quadriga.QuadrigaClient.SellLimitOrder` | quadriga/__init__.py:254-272 | A rejected book raises first. Otherwise it sends a signed POST /sell with {book, amount, price}. |
| `Quadriga.QuadrigaClient.LookupOrder` | quadriga/__init__.py:274-287 | Sends a signed POST /lookup_order with {id}. |
| `Quadriga.QuadrigaClient.CancelOrder` | quadriga/__init__.py:289-302 | Sends a signed POST /cancel_order with {id}. |
| `Quadriga.QuadrigaClient.GetDepositAddress` | quadriga/__init__.py:304-323 | A rejected currency raises before the network is used. bitcoin sends a signed POST /bitcoin_deposit_address and ether a signed POST /ether_deposit_address, with no payload fields of their own. |
| `Quadriga.QuadrigaClient.Withdraw` | quadriga/__init__.py:325-349 | A rejected currency raises first. bitcoin sends a signed POST of exactly {address, amount} to /bitcoin_withdrawal, and ether to /ether_withdrawal. |
| `QuadrigaDefaults.ConstructWithDefaultBook` | quadriga/__init__.py:28-32 | Without a default book argument, the client starts on eth_cad. |
| `QuadrigaDefaults.PublicOrdersDefaults` | quadriga/__init__.py:108 | `get_public_orders()` groups (group 1) on the default book. |
| `QuadrigaDefaults.PublicTradesDefaults` | quadriga/__init__.py:126 | `get_public_trades()` asks for time "hour" on the default book. |
| `QuadrigaDefaults.TradesDefaults` | quadriga/__init__.py:160 | `get_trades()` sends limit 100, offset 0 and sort "desc" on the default book. |

The exception hierarchy of quadriga/exceptions.py:4-26 is the datatype `Exceptions.QuadrigaError`.
Each subclass is one constructor: RequestError, InvalidCurrencyError and InvalidOrderBookError.
So every exception the library raises is a QuadrigaError by construction.

## Where the code differs from its own documentation (the model follows the code)

- **Success codes.** The `_handle_response` docstring says the error is raised when "HTTP 2XX
  was not returned" (quadriga/rest_client.py:59). The success set is `range(200, 210)`
  (line 35), so 210..299 raise too.
- **Arguments passed through unchecked.** The docstrings give `time` as `minute` or `hour`
  (quadriga/__init__.py:129), `sort` as `desc` or `asc` (line 167), and order ids as 64
  hexadecimal characters (lines 277 and 292). The code checks none of them, and neither does the
  model.
- **Signing fields.** `post` writes `key`, `nonce` and `signature` into the caller's dict after
  the caller's values (quadriga/rest_client.py:123-125), so caller values under those names are
  overwritten.
- **The `error` member.** `body['error'].get(...)` (quadriga/rest_client.py:80-86) needs
  `body['error']` to be a dict. Any other value lets AttributeError escape. Indexing a list or
  string body for `'error'` lets TypeError escape.
- **Code the tests expect but the source lacks.** tests.py calls `set_default_book` and expects
  `litecoin` endpoints. Neither exists in the source, and neither is modelled.

## Left out

- The HTTP calls themselves (`requests.get`, `requests.post`): network I/O. The model receives
  them as the `network` function.
- The HMAC-SHA256 digest and the UTF-8 encoding of the secret and the message: foreign library
  code. The model uses the opaque `hmacSha256Hex` function.
- Nonce generation from `time.time() * 1000`: the model takes the nonce as a parameter. Nothing in
  the code makes successive nonces increase, so no such property is stated.
- `_log` and the logger: side effects only.
- Construction with `default_book=None`. `_verify_book` would read `_default_book` before it is
  assigned, so the model's parameter is a string, never None.
- `str(client_id)` for a non-string client id: the client id is a string here.
- Json.Str: Python's `str()` of a list or dict, which an `error.code` or `error.message` could in
  principle be, is `repr` with Python's quoting and the dict's key order. The model writes a fixed
  marker instead. JSON numbers are integers only; floats are not modelled.
- `amount` and `price` values are opaque JSON values; floats are not modelled.
- The text of InvalidOrderBookError and InvalidCurrencyError: it lists the allowed set in Python's
  set iteration order, which varies from process to process. The model records the rejected value
  and the set instead.
- `transactionDataSucker.py` (a script doing SQLite I/O) and `setup.py` (packaging) are not part
  of this model.
