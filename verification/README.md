# Device stream client and device settings — a Dafny model

This project models the device side of an Azure IoT Hub device stream, as the
`AzDeviceStreamsDNCore` library implements it, and the two persisted flags of
the UWP sample page.

* `DeviceStreamClient.RunClientAsync(acceptDeviceStreamingRequest)` waits for a
  stream request from the hub. A null request is ignored. Otherwise the request
  is rejected, or it is accepted: a web socket is opened at the request's URL
  with its authorization token, one frame of at most 1024 bytes is received and
  decoded, the text callback `OnRecvdTextIO` (identity when unset) computes the
  answer, the answer is sent as one frame and the socket is closed. Finally the
  device client is closed. Every step runs inside a try block whose catch ladder
  turns an exception into one diagnostic line.
* `DeviceStreamClient.RunClient` creates the device client, runs the
  parameterless `RunClientAsync()` (which accepts) and disposes the client, with
  two more catch ladders.
* `MainPage.KeepDeviceListening` and `MainPage.AutoStartDevice` store their field
  and upsert a bool into the local settings container. `OnDeviceRecvText` is the
  callback the page hands to the client; it upper-cases the text.

Every collaborator call is a scripted reply, `Ok(value)` or `Throws(exn)`
(`DeviceStreamClient.Script`). A run is a pure function of the accept flag, the
callback, the codec and the script. It returns the calls issued, in order, and
the outcome: `Completed`, `Logged(line)` or `Escaped(exn)`. A call that throws
is still recorded in the trace. C# catch semantics are modelled as an ordered
list of clauses with subtype matching (`Exceptions.Dispatch`). The flat
function `Exceptions.Classify` is the reference the ladder is proved equal to.

Files: `basics.dfy` (Option, byte), `exceptions.dfy` (exceptions, catch
ladders, `String.Contains`), `stream_client.dfy` (the client),
`main_page.dfy` (settings upsert and the callback).

Behaviour of the code worth knowing, which the model follows:
* `_deviceClient.CloseAsync()` (DeviceStreamClient.cs line 82) is skipped
  whenever an earlier step throws. Only the `using` in `RunClient` disposes the
  client afterwards.
* A wait cut short by the cancellation token surfaces as a cancellation
  exception, logged as "Task canceled" or "Operation canceled". A null request
  is the only clean empty outcome.
* A timeout is recognised only in the catch-all clause, by the substring
  "Timeout" in the exception's message.

## Model

| member | source | states |
|---|---|---|
| Exceptions.Dispatch | AzDeviceStreamsDNCore/DeviceStreamClient.cs:84-108 | A catch ladder handles an exception exactly when one of its clauses catches that exception's class. Subtypes count: the operation-cancelled clause also catches task cancellations. The text logged is that of the first matching clause. |
| Exceptions.StandardLadderClassifies | AzDeviceStreamsDNCore/DeviceStreamClient.cs:84-108 | The five clauses, tried in source order, log exactly the flat classification: hub failure, device not found, task canceled, operation canceled, or the message ("Timeout" if it mentions Timeout). |
| Exceptions.CatchAllAbsorbs | AzDeviceStreamsDNCore/DeviceStreamClient.cs:100-108 | A ladder that contains `catch (Exception)` lets no exception through. |
| Exceptions.TaskCanceledShadowsOperationCanceled | AzDeviceStreamsDNCore/DeviceStreamClient.cs:92-99 | A task cancellation is also caught by the operation-cancelled clause. It is still logged as "Task canceled", never "Operation canceled", because its own clause comes first. |
| Exceptions.TimeoutRule | AzDeviceStreamsDNCore/DeviceStreamClient.cs:100-108 | A general exception whose message contains "Timeout" is logged as just "Timeout". Any other general exception is logged with its message. |
| Exceptions.ContainsIffOccurs | AzDeviceStreamsDNCore/DeviceStreamClient.cs:102 | The left-to-right scan standing for `String.Contains` is true exactly when the substring occurs at some offset. |
| Exceptions.ContainsWhenOccurs | AzDeviceStreamsDNCore/DeviceStreamClient.cs:102 | The substring scan does not miss an occurrence. |
| Exceptions.OccursWhenContains | AzDeviceStreamsDNCore/DeviceStreamClient.cs:102 | The substring scan reports only real occurrences, and returns the offset found. |
| Exceptions.Render | AzDeviceStreamsDNCore/DeviceStreamClient.cs:84-135 | A diagnostic line is its site's fixed prefix, such as "1 Error RunClientAsync(): ", followed by the handler's text. |
| Exceptions.RenderInjective | AzDeviceStreamsDNCore/DeviceStreamClient.cs:84-135 | Two equal diagnostic lines come from the same site with the same text: a line identifies where it was logged and what was logged. |
| DeviceStreamClient.HandleAbsorbs | AzDeviceStreamsDNCore/DeviceStreamClient.cs:84-108 | The end of a try block completes when nothing was thrown. Otherwise it logs the exception's classification at that site. It never lets the exception escape. |
| DeviceStreamClient.RunClientAsync | AzDeviceStreamsDNCore/DeviceStreamClient.cs:39-136 | No exception escapes the method. The calls it issues are in strict protocol order, each at most once: wait, accept or reject, open socket, receive, send, close socket, dispose socket, close client. |
| DeviceStreamClient.RunClientAsyncDefault | AzDeviceStreamsDNCore/DeviceStreamClient.cs:34-37 | The parameterless overload never rejects. Whenever a request arrives, it accepts it. |
| DeviceStreamClient.AcceptingNeverRejects | AzDeviceStreamsDNCore/DeviceStreamClient.cs:55-79 | With the accept flag set, no reject is ever issued, and an arrived request is accepted. |
| DeviceStreamClient.Consumed | AzDeviceStreamsDNCore/DeviceStreamClient.cs:41-63 | The bytes decoded are a prefix of the frame and at most 1024 long. They are the whole frame when it fits the buffer. |
| DeviceStreamClient.NegotiateOrder | AzDeviceStreamsDNCore/DeviceStreamClient.cs:48-83 | The calls of the inner try block are in strictly increasing protocol rank. |
| DeviceStreamClient.NegotiateStops | AzDeviceStreamsDNCore/DeviceStreamClient.cs:48-83 | In the inner try block, the exception in flight is the one from the first failing call. All calls before that call succeeded. Only a socket disposal follows it. |
| DeviceStreamClient.NegotiateEndsWithClose | AzDeviceStreamsDNCore/DeviceStreamClient.cs:82 | When nothing throws, the inner try block's last call is closing the device client. |
| DeviceStreamClient.NullRequestOnlyClosesClient | AzDeviceStreamsDNCore/DeviceStreamClient.cs:51-82 | After a null request, the only calls are the wait and the device-client close. The outcome is that close's result. |
| DeviceStreamClient.RejectNeverOpensSocket | AzDeviceStreamsDNCore/DeviceStreamClient.cs:55-82 | With the accept flag false, one reject is issued. There is no accept, socket open, receive or send. The close follows only if the reject succeeded. |
| DeviceStreamClient.AcceptPathOrder | AzDeviceStreamsDNCore/DeviceStreamClient.cs:55-82 | When accepting and every call succeeds, the trace is exactly: wait, accept, open at the request's URL and token, receive, send the answer, close socket, dispose socket, close client. The run completes. |
| DeviceStreamClient.SentPayload | AzDeviceStreamsDNCore/DeviceStreamClient.cs:62-70 | Anything sent is the encoded callback answer to the text decoded from at most 1024 received bytes. Without a callback, the decoded text is sent back unchanged. |
| DeviceStreamClient.FailsAtUnique | AzDeviceStreamsDNCore/DeviceStreamClient.cs:48-83 | Only the call at the failing position threw. |
| DeviceStreamClient.FailureStopsLaterSteps | AzDeviceStreamsDNCore/DeviceStreamClient.cs:48-108 | A call that throws is the last call issued; only the socket's disposal may follow it. The run logs that exception's classification from site 1. |
| DeviceStreamClient.TokenSourceFailure | AzDeviceStreamsDNCore/DeviceStreamClient.cs:43-135 | A failure creating the cancellation token source issues no call. It is logged from the outer site 2. |
| DeviceStreamClient.CompletedIffNoFailure | AzDeviceStreamsDNCore/DeviceStreamClient.cs:43-135 | The run completes without a diagnostic exactly when no call it issued threw. |
| DeviceStreamClient.CloseOnlyAfterSuccess | AzDeviceStreamsDNCore/DeviceStreamClient.cs:48-83 | The device client close is issued exactly when every other call issued returned normally. |
| DeviceStreamClient.SocketAlwaysDisposed | AzDeviceStreamsDNCore/DeviceStreamClient.cs:60-74 | Once the socket has been obtained, it is disposed on every way out of the exchange. |
| DeviceStreamClient.SessionNeverLogsFromRunClient | AzDeviceStreamsDNCore/DeviceStreamClient.cs:84-135 | `RunClientAsync` logs only from its own two sites, 1 and 2. |
| DeviceStreamClient.RunClient | AzDeviceStreamsDNCore/DeviceStreamClient.cs:139-216 | No exception escapes `RunClient`. Its handlers at site 3 never log. Its calls are in protocol order, from creating the client to disposing it. |
| DeviceStreamClient.RunClientIsAcceptingSession | AzDeviceStreamsDNCore/DeviceStreamClient.cs:139-216 | If creating the client fails, that failure is logged from site 4 and nothing else happens. Otherwise the calls and outcome are those of the accepting `RunClientAsync`, between creating and disposing the client. |
| MainPageDevice.AddSetting | UWP_Xaml_App/MainPage_Device.cs:90-91 | Adding to the container succeeds exactly when the key is absent. It then binds the key to the value, and every other entry keeps its value. |
| MainPageDevice.ClearStale | UWP_Xaml_App/MainPage_Device.cs:83-89 | After the first half of a setter, the key is present exactly when it held a bool, and then it holds the new bool. No other entry changes. |
| MainPageDevice.StoreBool | UWP_Xaml_App/MainPage_Device.cs:82-91 | The upsert never fails, whatever the key held before (absent, a bool, something else). Afterwards the key holds the new bool and every other entry is unchanged. |
| MainPageDevice.NonBoolIsReplaced | UWP_Xaml_App/MainPage_Device.cs:85-91 | A key holding a non-bool is removed first, then added back holding the bool. |
| MainPageDevice.StoreBoolIdempotent | UWP_Xaml_App/MainPage_Device.cs:83-91 | Upserting the same bool twice gives the same container as doing it once. |
| MainPageDevice.SetKeepDeviceListening | UWP_Xaml_App/MainPage_Device.cs:73-92 | After setting `KeepDeviceListening` to v, the getter returns v and the setting holds bool v. The other flag and every other setting are unchanged. |
| MainPageDevice.SetAutoStartDevice | UWP_Xaml_App/MainPage_Device.cs:100-116 | After setting `AutoStartDevice` to v, the getter returns v and the setting holds bool v. The other flag and every other setting are unchanged. |
| MainPageDevice.SettersIdempotent | UWP_Xaml_App/MainPage_Device.cs:79-116 | Setting either flag to the same value twice gives the same page as setting it once. |
| MainPageDevice.SettersIndependent | UWP_Xaml_App/MainPage_Device.cs:104-116 | Setting `AutoStartDevice` leaves the `KeepDeviceListening` entry as it was, and the other way round. |
| MainPageDevice.ToUpper | UWP_Xaml_App/MainPage_Device.cs:18 | The result has the input's length and no lower-case ASCII letter. Lower-case letters become their capitals; every other character is kept. |
| MainPageDevice.OnDeviceRecvText | UWP_Xaml_App/MainPage_Device.cs:15-28 | The answer returned is the input upper-cased: same length, each lower-case letter replaced by its capital, every other character kept. The UI dispatch does not change it. |
| MainPageDevice.ToUpperIdempotent | UWP_Xaml_App/MainPage_Device.cs:18 | Upper-casing twice is the same as upper-casing once. |
| MainPageDevice.HelloIsAnsweredUpperCased | UWP_Xaml_App/MainPage_Device.cs:15-27 | Wired to the client, the page's callback answers a received "hello" by sending the encoding of "HELLO". |

## Left out

- The Azure IoT Hub SDK, `DeviceClient.CreateFromConnectionString`, the AMQP transport and `ClientWebSocket` are foreign library code. Each call is a scripted reply in `DeviceStreamClient.Script` or `ClientScript`.
- The timeout of the `CancellationTokenSource` and async/await scheduling are not modelled. A deadline or cancellation shows up only as a call that throws a cancellation exception. Constructing the token source is one scripted reply, so the outer handlers of `RunClientAsync` stay reachable.
- Disposing the token source, the web socket and the device client is taken never to throw.
- UTF-8 decoding and encoding are a parameter (`DeviceStreamClient.Codec`), because they are library behaviour; the model proves its properties for every codec.
- MainPageDevice.ToUpper: covers only ASCII letters. Culture-dependent Unicode casing is library behaviour.
- MainPageDevice.OnDeviceRecvText: upper-cases only ASCII letters, for the same reason as `ToUpper`.
- The callback is a total function that never returns null. The C# delegate can throw, or return null, which makes `Encoding.UTF8.GetBytes(msgOut)` (line 68) throw `ArgumentNullException`; that is logged by the site-1 catch-all with no `Send` issued. These error paths are not modelled.
- `ReceiveAsync`'s message type and end-of-message flag are ignored. A frame longer than the buffer is cut to its first 1024 bytes, and the rest is never read.
- `Debug.WriteLine` output other than the classified diagnostic line is not modelled. This covers the "Client-N" traces and the received/sent data lines.
- The null checks in `RunClient` are dead code (lines 145-156): they do not return, and `new` never yields null.
- The transport type (`TransportType.Amqp`) is not modelled; only the connection string is recorded in the trace.
- The page's UI handlers are UI plumbing and are not modelled: `Button_Click_Device`, `ButtonCanceLDevice_Click`, `OnDeviceStatusUpdate`, the checkbox handlers and the `Dispatcher` marshalling.
- `DeviceStream_Device.RunDevice` and `Cancel` are not part of this model. This includes the keep-listening loop and external cancellation.
- The persistence of `ApplicationData.LocalSettings` is not modelled; the container is an in-memory map. Settings values of other types are stood in for by integers and strings.
