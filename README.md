# PiFinder Alpaca placeholder server and menu item definitions

This project models two small parts of PiFinder in Dafny and proves properties of them.

The first part is the placeholder ASCOM Alpaca telescope server in `python/PiFinder/alpaca/alpaca.py`. The model covers:

- the route paths that `get_url` builds;
- the standard response envelope that `std_res` builds, with its `ClientTransactionID` echo, its fixed `ServerTransactionID`, `ErrorNumber` and `ErrorMessage`, and its optional `Value` key;
- the HTTP status that `std_res` sets through `check`;
- the three-field record of `alpaca_response`;
- the comma-to-point normalisation of `_float`;
- the API version list;
- the global `telescope_state` dictionary, which `put_connected` writes and `get_connected` and `get_interfaceversion` read;
- the getters that answer with constant placeholder values.

The second part is the `MenuItemDefinition` dataclass in `python/PiFinder/ui/menu_definition.py`. The model covers its eleven fields and their defaults, its equality on `(name, label)`, its hash of `name + label`, `from_dict` and `display_name`.

Files:

- `py_builtins.dfy` (module `PyBuiltins`): the Python behaviour the code relies on. This is the value domain and its truthiness, `int(str)` in base 10 with the whitespace it skips, `str(int)` and one-character `str.replace`.
- `alpaca.dfy` (module `Alpaca`): the server. The telescope state is a class `TelescopeState` whose one field is the state dictionary. The part of Bottle's `response` object that `std_res` sets is a class `HttpResponse`. Each handler takes the request's query and form fields as maps and returns the dictionary it would serialise.
- `menu_definition.dfy` (module `MenuDefinition`): the menu item record. The field `label` is named `labelText`, because `label` is a Dafny keyword.

Where the code differs from what an ASCOM Alpaca server is expected to do, the model follows the code:

- A non-empty `ClientTransactionID` that is not a decimal integer makes `std_res` raise `ValueError`. It is not turned into 0.
- `ServerTransactionID` is always 0. There is no counter.
- There is one global state dictionary, not one state per device. The device number in the route is ignored.
- There is no device registry, no slewing state machine and no error taxonomy. Slewing is the constant False.
- `Connected` is stored as the raw form text, or as False when the form has no such field. It is not parsed as a boolean. A client that sends `Connected=False` therefore stores the non-empty, truthy string `"False"` (`Alpaca.DisconnectTextIsTruthy`).
- `get_interfaceversion` answers with the connected cell, not with an interface version.

## Model

| member | source | states |
|---|---|---|
| `PyBuiltins.Truthy` | python/PiFinder/alpaca/alpaca.py:33 | `bool(v)` is False exactly for None, False, 0, 0.0, -0.0, "" and [] |
| `PyBuiltins.StripLeft` | python/PiFinder/alpaca/alpaca.py:24 | `int()` skips leading whitespace (space, tab, line feed, vertical tab, form feed, carriage return, and non-ASCII whitespace, but not U+001C..U+001F): the result is a suffix, everything dropped is such whitespace, and the result does not start with it |
| `PyBuiltins.StripRight` | python/PiFinder/alpaca/alpaca.py:24 | `int()` skips trailing whitespace of the same kind: the result is a prefix, everything dropped is such whitespace, and the result does not end with it |
| `PyBuiltins.Strip` | python/PiFinder/alpaca/alpaca.py:24 | the text `int()` converts is no longer than the input, and neither of its ends is whitespace that `int()` skips |
| `PyBuiltins.StripStart` | python/PiFinder/alpaca/alpaca.py:24 | the stripped text is one contiguous slice of the input |
| `PyBuiltins.ParseInt` | python/PiFinder/alpaca/alpaca.py:24 | `int(s)` succeeds iff the stripped text is an optional sign followed by digits with single underscores between them; every failure is a `ValueError`; a negative result comes from a leading minus |
| `PyBuiltins.IntToDecimal` | python/PiFinder/alpaca/alpaca.py:24 | `str(i)` is non-empty, starts with a minus iff `i` is negative, and is digits after that |
| `PyBuiltins.ParseIntOfDecimal` | python/PiFinder/alpaca/alpaca.py:24 | `int(str(i)) == i` for every integer `i` |
| `PyBuiltins.IntToDecimalInjective` | python/PiFinder/alpaca/alpaca.py:24 | two integers have the same decimal text iff they are equal |
| `PyBuiltins.ParseIntIsCanonicalValue` | python/PiFinder/alpaca/alpaca.py:24 | for every text `int()` accepts, `str()` of the result is the stripped literal without its `+`, its underscores and its leading zeros, and without a minus before zero; so `int("007")` is 7, `int("+1_0")` is 10 and `int("-0")` is 0 |
| `PyBuiltins.LeadingZerosLiteral` | python/PiFinder/alpaca/alpaca.py:24 | "007" is an integer literal as it stands, and its canonical form is `str(7)` |
| `PyBuiltins.ParseIntIgnoresSurroundingWhitespace` | python/PiFinder/alpaca/alpaca.py:24 | whitespace that `int()` skips, before and after the decimal text of `i`, still converts to `i` |
| `PyBuiltins.ParseIntNeedsDigit` | python/PiFinder/alpaca/alpaca.py:24 | text with no decimal digit makes `int()` raise |
| `PyBuiltins.ParseIntRejectsLeadingSeparator` | python/PiFinder/alpaca/alpaca.py:24 | text that starts with one of U+001C..U+001F makes `int()` raise, because that character is not skipped |
| `PyBuiltins.ReplaceChar` | python/PiFinder/alpaca/alpaca.py:40 | one-character replace keeps the length, turns every `from` into `to` and keeps every other character |
| `PyBuiltins.ReplaceCharRemovesAll` | python/PiFinder/alpaca/alpaca.py:40 | after the replace no `from` is left, and a second replace changes nothing |
| `Alpaca.GetUrl` | python/PiFinder/alpaca/alpaca.py:11-12 | the path is the fixed telescope prefix with the `<device_number:int>` wildcard, followed by exactly the suffix |
| `Alpaca.RouteSuffixInvertsGetUrl` | python/PiFinder/alpaca/alpaca.py:11-12 | removing the prefix gives back the suffix, and every path with the prefix is rebuilt by `GetUrl` |
| `Alpaca.GetUrlInjective` | python/PiFinder/alpaca/alpaca.py:11-12 | two route paths are equal iff their suffixes are |
| `Alpaca.RoutesAreDistinct` | python/PiFinder/alpaca/alpaca.py:48-104 | no two registered routes share both method and path; `connected` has one GET and one PUT route on the same path |
| `Alpaca.ApiVersions` | python/PiFinder/alpaca/alpaca.py:48-51 | the version list has exactly one version, and it is the `v1` of the device route prefix, so the list is `[1]` |
| `Alpaca.ClientTransactionId` | python/PiFinder/alpaca/alpaca.py:23-24 | the id converts iff the query value is absent or empty (then it is 0) or an integer literal after stripping; every failure is a `ValueError` |
| `Alpaca.ClientTransactionIdIsCanonical` | python/PiFinder/alpaca/alpaca.py:23-24 | a non-empty id that converts is echoed as the integer whose decimal text is the canonical form of the stripped value |
| `Alpaca.ClientTransactionIdWithLeadingZeros` | python/PiFinder/alpaca/alpaca.py:23-28 | `ClientTransactionID=007` is echoed as 7 |
| `Alpaca.ClientTransactionIdEchoes` | python/PiFinder/alpaca/alpaca.py:23-24 | a `ClientTransactionID` that is the decimal text of `i`, with or without whitespace that `int()` skips around it, reads as `i` |
| `Alpaca.ClientTransactionIdDefaultsToZero` | python/PiFinder/alpaca/alpaca.py:23-24 | an absent or empty `ClientTransactionID` reads as 0; a lower-case parameter name is not seen |
| `Alpaca.NonNumericClientTransactionIdRaises` | python/PiFinder/alpaca/alpaca.py:24 | a non-empty `ClientTransactionID` with no decimal digit raises `ValueError` |
| `Alpaca.Check` | python/PiFinder/alpaca/alpaca.py:15-19 | `check` returns the status it is given, whatever the id |
| `Alpaca.HttpResponse.constructor` | python/PiFinder/alpaca/alpaca.py:25-26 | the response status is 200 until `std_res` sets it |
| `Alpaca.StdResult` | python/PiFinder/alpaca/alpaca.py:22-35 | every failure is a `ValueError`, and a failed id conversion raises first. Otherwise the call succeeds iff the status is accepted, and then: the echoed id is the converted one; server id, error number and message are 0, 0 and ""; a "Value" key exists iff the value is truthy, and holds that value |
| `Alpaca.StdResultEchoes` | python/PiFinder/alpaca/alpaca.py:23-28 | with a valid status, the decimal text of `i` yields an envelope with `ClientTransactionID` equal to `i` |
| `Alpaca.FalsyValuesAreDropped` | python/PiFinder/alpaca/alpaca.py:33-34 | None, False, 0, 0.0 and "" give no "Value" key |
| `Alpaca.StdRes` | python/PiFinder/alpaca/alpaca.py:15-35 | returns or raises as `StdResult`; on success the response status equals the status argument, because `check` returns it unchanged; on an exception the status is unchanged |
| `Alpaca.FloatText` | python/PiFinder/alpaca/alpaca.py:39-40 | the text given to `float()` has the same length and no comma; each comma becomes a point and every other character stays |
| `Alpaca.FloatTextIdempotent` | python/PiFinder/alpaca/alpaca.py:39-40 | normalising twice equals normalising once |
| `Alpaca.AlpacaResponse` | python/PiFinder/alpaca/alpaca.py:44-45 | the record always has a "Value" key, None included, and carries the three arguments |
| `Alpaca.ValueKeyPresenceDiffers` | python/PiFinder/alpaca/alpaca.py:44-45 | for a falsy value, `alpaca_response` keeps the "Value" key and `std_res` drops it |
| `Alpaca.GetSlewing` | python/PiFinder/alpaca/alpaca.py:75-79 | the record holds False, error number 0 and message "" |
| `Alpaca.GetAlignmentMode` | python/PiFinder/alpaca/alpaca.py:83-87 | the record holds 0, error number 0 and message "" |
| `Alpaca.GetDeclination` | python/PiFinder/alpaca/alpaca.py:90-94 | the record holds 0.0, error number 0 and message "" |
| `Alpaca.GetGps` | python/PiFinder/alpaca/alpaca.py:97-101 | the record holds False, error number 0 and message "" |
| `Alpaca.GetSiderealTime` | python/PiFinder/alpaca/alpaca.py:104-108 | the record holds 0.0, error number 0 and message "" |
| `Alpaca.PlaceholderGettersAreConstant` | python/PiFinder/alpaca/alpaca.py:75-108 | slewing, alignment mode, declination, GPS and sidereal time report success with a fixed falsy value (False, 0, 0.0, False, 0.0), whatever the device number |
| `Alpaca.FormConnected` | python/PiFinder/alpaca/alpaca.py:69 | the raw text of the "Connected" form field, or False without one; it is truthy iff the field was sent non-empty |
| `Alpaca.DisconnectTextIsTruthy` | python/PiFinder/alpaca/alpaca.py:69 | the form value is stored as raw text, so `Connected=False` stores a truthy string; a missing field stores False |
| `Alpaca.TelescopeState.constructor` | python/PiFinder/alpaca/alpaca.py:5-8 | the state starts as the single entry `connected = False` |
| `Alpaca.TelescopeState.PutConnected` | python/PiFinder/alpaca/alpaca.py:66-72 | stores the form value under "connected" and changes no other key, even when `std_res` then raises; returns `std_res` with status 200 and no value |
| `Alpaca.TelescopeState.GetConnected` | python/PiFinder/alpaca/alpaca.py:60-63 | answers `alpaca_response` of the stored connected value, with error number 0 and message "" |
| `Alpaca.TelescopeState.GetInterfaceVersion` | python/PiFinder/alpaca/alpaca.py:54-57 | answers exactly what `get_connected` answers |
| `Alpaca.PutThenGet` | python/PiFinder/alpaca/alpaca.py:54-72 | after a PUT, `get_connected` and `get_interfaceversion` return the raw form text, or False if the field is absent; the PUT envelope has no "Value"; the state keeps the same keys |
| `Alpaca.ConnectedHandlerAsWrittenRaises` | python/PiFinder/alpaca/alpaca.py:54-63 | the two handlers as declared cannot be called with the route's single argument: the call raises `TypeError` |
| `Alpaca.DeviceNumberHandlerBinds` | python/PiFinder/alpaca/alpaca.py:75-79 | a handler that takes only `device_number` binds to the route's argument |
| `MenuDefinition.Default` | python/PiFinder/ui/menu_definition.py:10-20 | the defaults: empty name, label and select; no items, objects or sorting; not stateful; not preloaded; enabled; state None; menu class `object` |
| `MenuDefinition.Eq` | python/PiFinder/ui/menu_definition.py:22-25 | `__eq__` gives `NotImplemented` iff the other object is not an item; otherwise it gives True iff the names and the labels are equal |
| `MenuDefinition.EqOperator` | python/PiFinder/ui/menu_definition.py:22-25 | `==` with an item on at least one side: between items, True iff names and labels are equal; with a non-item, False after both sides answer `NotImplemented` |
| `MenuDefinition.EqualIffNameAndLabel` | python/PiFinder/ui/menu_definition.py:22-25 | `a == b` on two items holds iff their names and labels are equal |
| `MenuDefinition.EqualityIgnoresOtherFields` | python/PiFinder/ui/menu_definition.py:10-25 | changing any of the other nine fields keeps an item equal to the original |
| `MenuDefinition.EqWithNonItem` | python/PiFinder/ui/menu_definition.py:22-24 | comparing with a non-item gives `NotImplemented`, and `==` is then False from either side |
| `MenuDefinition.EqualityIsEquivalence` | python/PiFinder/ui/menu_definition.py:22-25 | item equality is reflexive, symmetric and transitive |
| `MenuDefinition.Hash` | python/PiFinder/ui/menu_definition.py:27-28 | the hash is the string hash of the name followed by the label; no other field enters it |
| `MenuDefinition.HashConsistentWithEq` | python/PiFinder/ui/menu_definition.py:22-28 | equal items have equal hashes under every string hash |
| `MenuDefinition.HashCollidesOnSplitPoint` | python/PiFinder/ui/menu_definition.py:27-28 | name "ab" with label "" and name "a" with label "b" hash alike but are not equal, so equal hashes do not imply equality |
| `MenuDefinition.DisplayName` | python/PiFinder/ui/menu_definition.py:34-39 | the display name is the name |
| `MenuDefinition.FromDict` | python/PiFinder/ui/menu_definition.py:30-32 | a key that names no field makes the call raise, and the error is a `TypeError`; otherwise a name or label entry becomes that field, and a missing one takes the default "" |
| `MenuDefinition.FromDictOfToDict` | python/PiFinder/ui/menu_definition.py:30-32 | building from an item's own fields gives back that item |
| `MenuDefinition.FromEmptyDictIsDefault` | python/PiFinder/ui/menu_definition.py:10-20 | an empty dictionary builds the default item |
| `MenuDefinition.FromDictFieldByField` | python/PiFinder/ui/menu_definition.py:10-32 | without unknown keys, each of the eleven fields is the dictionary's entry when present and the default otherwise |
| `MenuDefinition.FromDictEqualityByNameAndLabel` | python/PiFinder/ui/menu_definition.py:30-32 | two dictionaries with the same name and label entries build equal items |

## Findings

| source | as written | input that shows it | evidently intended | confidence | as-written member | corrected member |
|---|---|---|---|---|---|---|
| python/PiFinder/alpaca/alpaca.py:54-63 | `get_connected` and `get_interfaceversion` require `device_type`, `device_number`, `client_id` and `client_transaction_id`. The route pattern from `get_url` passes only `device_number`. | `GET /api/v1/telescope/0/connected`: the handler is called with `device_number=0` alone, so three required arguments are missing and a `TypeError` is raised | the handlers take only `device_number`, like the other telescope handlers, and answer with the connected cell | high; not executed | `Alpaca.ConnectedHandlerAsWrittenRaises` | `Alpaca.TelescopeState.GetConnected` |

## Left out

- HTTP transport is not modelled. This covers Bottle's routing decorators, the `request` and `response` globals, `json.dumps`, the `content_type` assignments and the `run(host=..., port=11111)` call at import. Handlers take the query and form fields as maps and return the dictionary before serialisation.
- Bottle is not part of this model. The model relies on four assumptions about it:
  - a missing query attribute reads as "";
  - a repeated query or form field gives its last value, so a map holds that value;
  - the status setter accepts integers from 100 to 999 and raises `ValueError` for others;
  - a route's keyword arguments are its wildcards.
- A query value that Bottle cannot re-decode as UTF-8 reads as "" in Bottle. This case is not modelled.
- The `print` calls in `check` and `put_connected` are debugging output only and are not modelled.
- `float()` in `_float` is not modelled, because floating-point parsing is out of scope. Only the text it is given (`Alpaca.FloatText`) is modelled. The 0.0 placeholders are kept as IEEE-754 bit patterns, so only their truthiness is modelled.
- PyBuiltins.ParseInt: it accepts ASCII decimal digits only. Python also accepts other Unicode decimal digits. Python's limit on the number of digits converted (4300 by default in recent versions) is also not modelled.
- The `client_id` query parameter is never read by the code, so it is not modelled.
- Python's string hash is salted per process, so `MenuDefinition.Hash` takes it as a parameter.
- The contents of `CompositeObject` are not modelled: each object is an opaque identifier.
- Menu item fields are modelled with their annotated types. Python does not enforce these types, and values of other types are not modelled.
- `from_dict` with non-string keys raises its own `TypeError`. This case is not modelled.
- Concurrency, a per-device registry, a monotonic server transaction counter, a slewing state machine and a typed error taxonomy are not modelled, because the code has none of them.
- `astro_data/h400.py` is not part of this model. It is a one-shot file conversion script with no logic beyond a library string split.
