# Key/value store server, modelled in Dafny

The server keeps an in-memory table from string keys to string values. It
answers HTTP requests on `/store/{key}`:

- `PUT` stores the request body under the key, with 201 "Key created" or 200 "Key updated".
- `GET` answers 200 with the stored value, or 404 "Key not found".
- `DELETE` removes the key with 200 "Key deleted", or answers 404 "Key not found".
- An empty key on GET or DELETE, or on a PUT whose body was read, gets 400.
- A PUT whose body cannot be read gets 500, before its key is checked.
- Any other method gets 405.

The model has three modules:

- `Entries` (entries.dfy): the table as a `map<string, string>` value. It holds the three store operations as functions (`SetEntry`, `GetEntry`, `DeleteEntry`) and the round-trip lemmas about them. `SetAll` replays a run of Sets on one key in the order the store's lock admitted them.
- `Dispatch` (dispatch.dfy): the handler's decision table. It has the status codes, messages and `TrimPrefix`. `Serve(m, req)` gives the response to a request against table `m` and the table afterwards. The lemmas state each branch of the table, the order of the checks, and that requests on different keys commute.
- `Server` (server.dfy): class `Store`. Its `data` field holds the table and its methods `Set`, `Get` and `Delete` update that field in place. `Handle(verb, path, body)` is the handler as a method on the store and is specified by `Serve`. `Session` replays a request sequence against a fresh store.

The request body is an `Option<string>`: `None` stands for a failed read of the body.

The lock is left out. Each method is atomic because Dafny methods run sequentially, so a concurrent history is modelled as the sequence of operations in the order the lock admitted them. On PUT the code reads the body before it checks the key, so an unreadable body gives 500 even when the key is empty.

## Model

| member | source | states |
|---|---|---|
| `Entries.SetEntry` | server/server.go:17-26 | the flag is true exactly when the key was absent; afterwards the key maps to the value, the key set gains only that key, and every other entry is unchanged |
| `Entries.GetEntry` | server/server.go:28-34 | found exactly when the key is present; the value is the stored one, or "" (Go's zero value) when absent |
| `Entries.DeleteEntry` | server/server.go:36-45 | the flag is true exactly when the key was present; afterwards only that key is gone and all other entries keep their values; deleting an absent key leaves the table identical |
| `Entries.SetThenGet` | server/server.go:17-34 | Set(k, v) then Get(k) yields (v, true) |
| `Entries.SetTwiceThenGet` | server/server.go:17-34 | Set(k, v1); Set(k, v2): the second reports created = false, and Get then yields (v2, true) |
| `Entries.SetIsCreateThenUpdate` | server/server.go:21-25 | Set on an empty table reports created; repeating the same Set reports an update |
| `Entries.DeleteAbsent` | server/server.go:36-45 | deleting an absent key reports false, leaves the table identical, and Get still finds nothing |
| `Entries.DeletePresentThenGet` | server/server.go:28-45 | deleting a present key reports true, and Get then reports not found |
| `Entries.SetAll` | server/server.go:17-26 | a serialised run of Sets on one key: the final table and one created flag per Set, so the flags are as many as the Sets |
| `Entries.SerializedSetsKeepOneValue` | server/server.go:12-26 | Sets on one key, in any serialisation order, leave the last value written, which is one of the attempted values; other keys are untouched; only the first Set reports a creation, exactly when the key was absent |
| `Dispatch.TrimPrefix` | server/server.go:53 | when the path starts with the prefix, the result is what follows it; otherwise the path is returned unchanged |
| `Dispatch.KeyIsPathAfterPrefix` | server/server.go:53 | `/store/` followed by k addresses key k; `/store/` alone addresses the empty key |
| `Dispatch.Serve` | server/server.go:53-120 | every answer is one of 200/201/400/404/405/500; every failure leaves the table as it was; only the request's own key can change; 201 is answered exactly for a PUT with a readable body and a non-empty key that was absent |
| `Dispatch.UnreadableBodyFailsFirst` | server/server.go:56-61 | a PUT whose body cannot be read gets 500 "Failed to read request body" for any path, the empty key included, and the table is untouched |
| `Dispatch.EmptyKeyRejected` | server/server.go:64-106 | an empty key on PUT (body read), GET or DELETE gets 400 and the table is untouched |
| `Dispatch.PutStoresBody` | server/server.go:62-85 | a PUT with a key stores the body verbatim, the empty body included; it answers 201 "Key created" if the key was new and 200 "Key updated" otherwise |
| `Dispatch.GetAnswers` | server/server.go:86-101 | a GET with a key answers 200 with the stored value or 404 "Key not found", and never changes the table |
| `Dispatch.DeleteAnswers` | server/server.go:102-117 | a DELETE with a key removes exactly that key with 200 "Key deleted", or answers 404 "Key not found" with the table identical |
| `Dispatch.OtherMethodNotAllowed` | server/server.go:118-119 | any method other than PUT, GET and DELETE gets 405 "Method not allowed" whatever the key, and the table is untouched |
| `Dispatch.PutThenGet` | server/server.go:62-101 | a successful PUT of v followed by a GET of the same path answers 200 with v |
| `Dispatch.ServeIsLocal` | server/server.go:53-120 | the answer to a request, and its key's entry afterwards, depend on the table only through that key's entry |
| `Dispatch.DistinctKeysCommute` | server/server.go:12-45 | two requests on different keys get the same answers and leave the same table in either order, so the order the lock imposes between them is not observable |
| `Server.Store.constructor` | server/server.go:48-50 | the server starts with an empty table |
| `Server.Store.Set` | server/server.go:17-26 | created exactly when the key was absent; the new table is the old one with the key mapped to the value; the status result is always 200 |
| `Server.Store.Get` | server/server.go:28-34 | reads without changing the table; (value, true) when present, ("", false) otherwise |
| `Server.Store.Delete` | server/server.go:36-45 | found exactly when the key was present; the new table is the old one without the key |
| `Server.Store.Handle` | server/server.go:52-121 | the response and the new table are those of `Serve` on the old table, so every property proved of `Serve` holds of the handler on the store |
| `Server.Session` | server/server.go:52-121 | against a fresh store: PUT foo=bar gets 201 "Key created", GET foo gets 200 "bar", PUT foo=baz gets 200 "Key updated", DELETE foo gets 200 "Key deleted", GET foo gets 404, GET on `/store/` gets 400, PATCH foo gets 405 |

## Left out

- The `sync.Mutex` embedded in the store and its Lock/Unlock pairs (server/server.go:14, 18-19, 29-30, 37-38). Their only effect is to serialise calls. Each method here runs atomically, and concurrent histories are modelled by the order the lock admits the operations (`SetAll`, `DistinctKeysCommute`).
- HTTP plumbing is I/O and is left out: handler registration, `ListenAndServe`, `log.Fatal` and the startup message (server/server.go:52, 123-124). The handler returns `(status, message)` instead of writing to a `ResponseWriter`.
- Response headers and the trailing newline that `http.Error` appends to error messages are library behaviour and are not modelled.
- A failure to write the response body is only logged (server/server.go:74-77, 81-84, 95-98, 111-114), so it is left out. It changes neither the status already chosen nor the table.
- `io.ReadAll` (server/server.go:57) is foreign I/O. Its outcome is the `Option<string>` body: `None` means the read failed.
- Bytes versus characters: Go strings are byte strings, and the model's strings are `seq<char>`. The body is stored verbatim either way, and no decoding is modelled.
- The HTTP multiplexer's routing is library code and is not modelled. It sends only paths under `/store/` to this handler, and it also does path cleaning and redirects. `TrimPrefix` still models the case of a path that lacks the prefix, which it returns unchanged.
- client/client.go is not part of this model. It handles command-line flags, builds one request, prints the response and exits. It has no state.
