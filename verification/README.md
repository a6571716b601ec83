# DCV Inspector: a verified model of the test zone

DCV Inspector gives every test a subdomain of `test.<domain>`, publishes what the test's owner posts (DNS records and
HTTP files), answers DNS, HTTP and SMTP beneath that subdomain, and logs what arrives while the test is running. This
project models that engine in Dafny and proves what it keeps over every interleaving of its handlers.

Run `dafny verify dfyconfig.toml` to check it.

## How it is built

- `Ascii`, `TestIds`, `Records`, `Posting`, `Http`: strings, test IDs and host names, record types, the dashboard's
  forms, the dispatch of HTTP requests.
- `Tables`: the SQL schema as typed tables, and every writing SQL statement as a function of the tables (`Execute`).
- `Dns`: what the DNS server answers, as a function of the tables. `DnsTheorems` and `DnsReplies` state what holds of it.
- `Names`, `Targets`, `Pages`, `Requests`, `DnsAnswers`: from the characters of a request to the fields of the reply and
  the rows of the tables, for requests handled with nothing in between.
- `Machine`: the running server. Every DNS query, HTTP request, dashboard POST and SMTP message is a handler, a small
  program each of whose steps is one SQL statement (or a failure of it). A run is any interleaving of arrivals, handler
  steps, starts of tests, cleanups and the passing of time. "Check that the test is running" and "insert the row" are
  different steps, so a stop or a cleanup may fall between them.
- `Invariants`, `Lifecycle`, `LogFreezing`, `Edits`, `Publication`, `Files`, `Delivery`: theorems about every run.
- `Noninterference` shows that the steps of other tests can be dropped from a run if row ids may be kept, and `RowIds`
  what is left of that when SQLite picks them. `OwnSteps` and `RecordReuse` say when the steps of a test alone decide
  how it ends, and `RowReuse` shows that they need not. `NameErrors` says when all query types agree on NXDOMAIN, and
  shows that they need not. `Posts` builds the runs of these examples.
- `Store`, `Servers`, `Smtp`: the imperative code. `Database` is a class with mutable tables and one method per SQL
  statement; the handlers are methods with the source's loops and branches, `Session` is the SMTP session. Each handler
  method is proved equal to its handler in the machine running undisturbed (`Sequential.Complete`), and
  `Sequential.CompleteIsRun` shows that this is one of the machine's runs.

## What the model assumes

- Strings are ASCII byte sequences. `domain` is non-empty, lower-case, without a final dot and without `@`
  (`ValidDomain`); main.go checks only that it is not empty, and the round trips need the rest.
- `dns.IsSubDomain` is label-suffix containment on dot-terminated names, with escaped dots told apart from separators.
  `dns.IsDomainName` is an arbitrary predicate, and the record types that the DNS library can decode an arbitrary set
  that contains TXT, CAA and CNAME.
- Stored JSON is typed data. Each SQL statement is one atomic step.
- A row that is inserted gets any positive row id above all those present in its table. SQLite's choice is one more than the
  largest: the id of a deleted last row is used again, because no table is declared `AUTOINCREMENT`. Runs with that
  choice are the runs over SQLite (`Sequential.ExactRun`).
- Time is an integer number of seconds; a cleanup computes its cutoff and executes at one instant.

Where the repository's README says that all queries, requests and mail beneath a test's subdomain are recorded, the
code records less, and the model follows the code: nothing for a test that is not running, no HTTP request for a host
that starts with an underscore, and no mail to an address that writes the zone's own labels in capitals
(`TestIds.AcceptedExactly` gives the condition, `TestIds.CapitalZoneIsRefused` the refused address).

## Model

| member | source | states |
|---|---|---|
| TestIds.DecodeAfterEncode | test_id.go:38-40 | decoding a printed test ID gives the bytes back, for every byte sequence |
| TestIds.EncodeAfterDecode | test_id.go:77-84 | whatever hexadecimal text decodes prints back lower-cased, and decodes the same in lower case |
| TestIds.ParseAfterPrint | test_id.go:50-75 | for every ID and subdomain, dotted or empty, parsing the printed host name, with or without a trailing dot, yields the ID and the lower-cased subdomain |
| TestIds.PrintAfterParse | test_id.go:50-75 | printing the parse of an accepted host name gives it back lower-cased and without trailing dot if and only if the name is not of the form ".ID.test.domain", which collapses to the empty subdomain |
| TestIds.FoldingAgrees | test_id.go:56-75 | a host name accepted as written is accepted with the same ID and subdomain after case folding |
| TestIds.AcceptedExactly | test_id.go:56-63 | without folding, a name is accepted if and only if its folded form is and the zone's own part is written in lower case |
| TestIds.CapitalZoneIsRefused | smtp.go:137-144 | mail to any local part at the host of any test with ".TEST." in capitals is refused, although the host in lower case is the test's |
| TestIds.MailReachesTest | smtp.go:137-144 | mail to any local part, even one with "@", at the host name of any test and any subdomain reaches that test |
| Names.HostExactly | test_id.go:50-75 | a host name belongs to a test if and only if it is the ID in hexadecimal, in either case, in front of ".test." and the domain, with or without a final dot, and possibly labels in front of it, which in lower case are the subdomain |
| Names.AddressExactly | smtp.go:137-144 | mail is accepted for a test if and only if what follows the last at-sign is one of its host names |
| Names.ServedExactly | dns.go:39-57 | a question is answered, and not refused, if and only if it is of class 1, not of type 251 or 252, and in any letter case for a name at or beneath the zone, at a label boundary |
| FrontEnds.DnsAgrees | dns.go:49-70 | an accepted dot-terminated name, in any case, is not refused and is attributed to the same test and subdomain |
| FrontEnds.HttpAgrees | http.go:74-93 | a request for an accepted host, with or without a port, goes to the same test, or is a 404 if the host starts with an underscore |
| FrontEnds.SmtpAgrees | smtp.go:137-144 | mail to any local part at an accepted host goes to the same test |
| FrontEnds.StartLeadsToPage | dashboard.go:299-306 | the path that starting a test redirects to is dispatched to the page of that test |
| FrontEnds.PostedIsAnswered | dashboard.go:337-368 | whatever a form posts as TXT, CAA (with the flag printed in decimal) or CNAME is accepted exactly within its bounds and reads back as posted, at the lower-cased subdomain: the text verbatim, the same flag, tag and value, the normalized target |
| FrontEnds.DeleteButton | dashboard.go:393-396 | a removal form with a printed row id asks to delete exactly that row id |
| Targets.SubDomainExactly | dashboard.go:330 | the label comparison holds if and only if the name is the domain, or a front that does not end in an odd number of backslashes, a dot and the domain |
| Targets.TargetExactly | dashboard.go:318-335 | a CNAME target, typed in any letter case, with blanks around it and with or without its final dot, is accepted if and only if it is a domain name at or beneath one of the five listed domains, at a label boundary |
| Targets.EveryInput | dashboard.go:318-322 | whatever is typed is blank, and refused, or typed as some target |
| Targets.GluedTargetIsRefused | dashboard.go:329-334 | a listed domain with something in front that does not end in an unescaped dot is refused, unless another listed domain covers the name |
| Targets.NotSslIsRefused | dashboard.go:329-334 | "notssl.com." is refused |
| Pages.PageStatus | dashboard.go:370-379 | 500 if the first statement fails, 404 for an unknown test, and 200 for a stopped test or a request that is not a POST; nothing changes |
| Pages.FailedFormDoesNothing | dashboard.go:381-425 | a posted form whose statement fails changes nothing; for a stop form the status is 500 |
| Pages.StopForm | dashboard.go:380-383 | a form whose stop field is not empty, whatever else it holds, answers 303 and sets the stop time of the running test to the current time, and changes nothing else |
| Pages.OtherFormsStopNothing | dashboard.go:380-427 | every other request over HTTP that arrives at a test or its page leaves every test row as it was |
| Pages.TxtFormPublishes | dashboard.go:339-345 | from the fields of the form to the table: one row of type 16 with the text as typed, at the lower-cased subdomain, if it has at most 255 bytes; otherwise 400 and no change |
| Pages.CaaFormPublishes | dashboard.go:346-357 | one row of type 257 with the flag, tag and value, if the flag is at most 255 and the tag has 1 to 255 bytes; otherwise 400 and no change |
| Pages.CnameFormPublishes | dashboard.go:358-364 | one row of type 5 with the target, if it is a domain name at or beneath a listed domain; otherwise 400 and no change |
| Pages.OtherKindIsRefused | dashboard.go:365-367 | a record of any other kind is a 400 |
| Pages.RecordFormRemoves | dashboard.go:393-396 | the row of this test and the printed row id goes, and nothing else |
| Pages.FileFormRemoves | dashboard.go:397-400 | the file row of this test and the printed row id goes, and nothing else |
| Pages.EmptyFormDoesNothing | dashboard.go:428-429 | a form that asks for nothing answers 303 and changes nothing |
| Pages.FileFormPublishes | dashboard.go:401-426 | one row with the scheme, lower-cased subdomain, path and content as typed, if the scheme is http or https, the path is beneath one of the two validation paths, the content has at most 512 bytes and the key is free; otherwise 400 and no change |
| Requests.BracketedHost | http.go:74-80 | a host in brackets with a port is taken without them, in lower case |
| Requests.UnsplitHost | http.go:74-80 | a Host header with too many colons is taken whole, in lower case |
| Requests.OtherHosts | http.go:82-99 | 404 for a host that is no test's and for a test's name with an underscore in front, 400 for a peer address that cannot be read, and otherwise the test of the host |
| Requests.PlainIsRedirected | dashboard.go:261-272 | plain HTTP to the operator's domain is a 308 for every path, where that is asked for |
| Requests.StartExactly | dashboard.go:278-279 | a test is started by a POST to "/test" and by nothing else |
| Requests.PageExactly | dashboard.go:280-281 | a test's page is at "/test/" and its ID in hexadecimal, in either case, and nowhere else |
| Requests.OtherPaths | dashboard.go:273-287 | every other path is one of the pages without a write or a 400 |
| Requests.HostAnswers | http.go:101-137 | a request to a host of a running test answers 200 with the file at its transport's scheme, its subdomain and its path, or the empty body, and logs one row with the peer, the Host header, the transport, the method and the URL |
| Requests.HostFails | http.go:116-130 | the host of a test that is not running answers 404, a failing check, read or insert answers 500, and neither leaves a trace |
| Requests.PostedFileIsServed | dashboard.go:401-426 | from form to body: a file posted for http or https is the body of a request over that transport, and over the other transport the answer is what was there before |
| Posting.NormalizeAndValidateCNAMETarget | dashboard.go:318-335 | the rewriting of the target and the loop over authorised domains compute the specified normal form, or refuse |
| Posting.NormalizedTargetIsGood | dashboard.go:318-335 | an accepted target is lower-case, dot-terminated, a domain name, and authorised |
| Posting.NormalizationIsIdempotent | dashboard.go:318-335 | normalizing an accepted target again changes nothing |
| Posting.DecimalRoundTrip | dashboard.go:348-351 | every number printed in decimal is read back |
| Posting.DigitsExactly | dashboard.go:348-351 | a number is read from a string if and only if it consists of digits |
| Posting.DecodedActionIsGood | dashboard.go:337-427 | whatever form is posted, a record or file that gets past decoding is within its bounds: type, TXT at most 255, flag at most 255, tag 1 to 255, good target, scheme, path prefix, 512 bytes |
| DnsTheorems.LookupOfPosted | dns.go:123-157 | on posted records the lookup takes no error exit and yields the oldest CNAME alone, or else all selected records after what was there |
| DnsTheorems.CnameForEveryType | dns.go:128-136 | both SELECTs see the same oldest CNAME, whatever type is asked |
| DnsTheorems.ResolveRefines | dns.go:57-107 | the branches, the two SELECTs and the overwriting loop with break refine the specification over the live records |
| DnsTheorems.TypedRestrictsAny | dns.go:57-107 | for fixed posted records and any name, the answer to a type is, as a sequence, the ANY answer filtered to that type and CNAME |
| DnsTheorems.CnameStandsAlone | dns.go:97-107 | an answer contains a CNAME if and only if the test is running and one is live there, and then it is the only record, the same for every type |
| DnsTheorems.OwnerOfStored | dns.go:143-144 | the owner name rebuilt from the parse of a dot-terminated name is that name if and only if no empty label stands in front of the ID, and otherwise the rest of the name |
| DnsTheorems.NameErrorExactly | dns.go:70-119 | NXDOMAIN exactly for names outside the naming scheme and for underscore names with nothing selected |
| DnsTheorems.NameErrorForAny | dns.go:57-119 | if ANY gives NXDOMAIN then so does every type |
| NameErrors.NameErrorAgreesExactly | dns.go:70-119 | all types agree on NXDOMAIN if and only if the name is not an underscore name of a running test with a live record and no live CNAME |
| NameErrors.NameErrorDependsOnType | dns.go:71-116 | they do disagree: four steps from the empty database, A gives NXDOMAIN and TXT does not at an underscore name with one TXT record |
| DnsReplies.EveryReplyIsGood | dns.go:40-121 | in every reachable state every DNS reply ever given, under any interleaving and any failing statement, is a refusal exactly when the question is not served; every other reply has the SOA as authority exactly when it is empty, holds a CNAME only by itself, and is owned throughout by the lower-cased query name, or, where that has an empty label in front of the ID, possibly by the rest of it; NXDOMAIN comes only at underscore names of tests, and always at names outside the naming scheme other than the zone itself |
| DnsReplies.ReachableAnswers | dns.go:123-157 | in every reachable state the lookup never fails on a row, and refinement, typed restriction and CNAME exclusivity hold |
| DnsAnswers.BuiltInReply | dns.go:70-96 | field by field, the reply for a test's name at which nothing is live: its addresses in order with a lifetime of 3600, its mail exchanger at preference 10, both or neither by type; the zone's authority where the answer is empty; NXDOMAIN at underscore names; one log row if the test is running |
| DnsAnswers.ZoneReply | dns.go:59-69 | field by field, the reply for the zone's own name: its name server, its authority, both or neither by type |
| DnsAnswers.UnknownReply | dns.go:108-120 | NXDOMAIN with the zone's authority for a name beneath the zone that is no test's |
| DnsAnswers.RefusedReply | dns.go:42-55 | a message without a question, for another class, for a zone transfer or for a name elsewhere is refused with nothing in it |
| DnsAnswers.SelectedInOrder | dns.go:128-136 | the SELECTs give exactly the rows of the test and subdomain that have the type asked or are CNAMEs, in the order of the table |
| DnsAnswers.StoredReply | dns.go:97-157 | field by field, the reply for a running test's name: the oldest CNAME alone, or the built-in records and then the stored ones, each with a lifetime of 15 and its data as posted |
| Invariants.ExecuteKeepsTables | schema/003.sql:1-18 | every statement with good data keeps row ids ascending, foreign keys, record bounds, file bounds and uniqueness of file keys |
| Invariants.ApplyKeepsInv | dashboard.go:370-430 | every step of the machine keeps the table and handler invariants |
| Invariants.ReachableInv | schema/001.sql:1-35 | the invariants hold in every reachable state |
| Lifecycle.StopIsFinal | dashboard.go:381 | over every run no test row disappears, its start time is fixed and its first stop time is never changed |
| Lifecycle.StartedInBetween | dashboard.go:299-303 | over every run: a test found running that was not running before was started in between, under an ID that no test had, at the time its row shows |
| Lifecycle.StopsExactly | main.go:197-200 | a step stops a running test if and only if it is a cleanup more than six hours after its start or carries out a stop posted from its page, and sets the current time |
| Lifecycle.StoppedInBetween | dashboard.go:380-383 | over every run: a test found stopped that was running before was stopped in between by such a step, at the time its row shows |
| Lifecycle.NoTestRunsLonger | main.go:186-200 | if successful cleanups are at most an hour apart, no test is ever running more than seven hours after its start |
| Lifecycle.SevenHoursAreReached | main.go:186-200 | the seven hours are reached by a run with hourly cleanups |
| LogFreezing.StepDrains | dns.go:97-105 | while a test is not running, no step increases its logged rows plus its handlers in flight |
| LogFreezing.LogIsBounded | http.go:116-130 | over any stretch without the test running, its log grows by at most the handlers in flight at its start |
| LogFreezing.LogFreezesAfterStop | smtp.go:110-117 | after a stop the rows still to come are bounded by the handlers in flight, and without any the logs never change again |
| LogFreezing.LoggedAfterOwnCheck | test_id.go:88-99 | every row ever logged for a test was preceded by the step at which the same handler passed its check, in a state in which the test was running |
| LogFreezing.LogsOnlyGrow | schema/001.sql:6-40 | the logs of a test are append-only over every run |
| Edits.EditsAreBounded | dashboard.go:379-427 | over any stretch without the test running, what is published for it changes at most as often as there were posts in flight at its start |
| Edits.PublishedFreezesAfterStop | dashboard.go:379-427 | after a stop the published records and files change at most once per post in flight, and without any never again |
| Noninterference.ExecuteOfTest | dashboard.go:381-421 | a statement on a test acts on that test's rows alone; a removal that names another test's row id deletes nothing |
| Noninterference.OthersAreInvisible | dashboard.go:381-421 | a step that does not concern a test leaves its part of the system unchanged |
| Noninterference.OwnStepsCommute | dns.go:123-136 | a step of a test is possible and does the same in the test's own part of the system |
| RowIds.OthersOnlyRenumber | dashboard.go:390-398 | over SQLite: from any run, dropping every step of other tests, with SQLite picking the row ids again and the test's removals aimed at the rows they hit before, leaves a run that ends with the same test, records, files, answers, replies and logs, up to an order-preserving renumbering of the rows of each table |
| RowIds.RemovalsHitTheSameRow | dashboard.go:394-398 | each removal in that run names the row at the same position as the original removal, or no row if that named none |
| OwnSteps.SameStepsSameEnds | dashboard.go:390-421 | two runs with the same steps of a test end alike for it, in its times, records, files and logs, up to an order-preserving renumbering of its rows, whatever other tests did and whatever row ids are picked, as long as no removal of a positive row id follows an insertion into the same table |
| RowReuse.RepeatedRemovalInterferes | dashboard.go:393-396 | with removals they need not: two runs over SQLite with the same steps of a test, down to the ids in its forms, after which it keeps a record in one and none in the other, because an id was used again and removed again |
| RecordReuse.DecidesRecordsExactly | dashboard.go:390-396 | over SQLite, the steps of a test decide its records, up to such a renumbering and over all runs of the other tests, if and only if those steps carry out no removal of a positive row id after an insertion |
| RecordReuse.FormsDecideRecords | dashboard.go:386-396 | the same on the forms alone, before they are posted: if and only if no form that removes a record by a positive row id follows one that adds a record |
| Publication.TableIsHistory | dashboard.go:390-396 | at any point of any run the record table is the initial rows never removed, then the posted records not removed afterwards, in posting order |
| Publication.QueriedName | test_id.go:50-75 | a query in any letter case for any subdomain of a test is served and attributed to the test and the lower-cased subdomain |
| Publication.RepliesWithPublished | dns.go:97-157 | under every interleaving, a query is answered with exactly what had been published at the moment of its lookup |
| Publication.QueryIsAnswered | dns.go:40-121 | undisturbed, a query for a running test returns beyond the built-in records exactly the live records of its type in posting order, or the oldest live CNAME alone, and is logged once |
| Files.FindIsLookup | http.go:123-126 | reading a file is a lookup in a map from test, scheme, subdomain and path |
| Files.ExecuteOnMap | dashboard.go:397-426 | an insert adds its file if the key is absent and otherwise changes nothing, a removal deletes at most one key, every other statement none |
| Files.ContentIsFixed | dashboard.go:421-424 | no step changes the content of a published file while its key is present |
| Files.RepliesWithFile | http.go:123-136 | under every interleaving, a GET is answered with the value at its key when it was read, or the empty body, or an error |
| Files.ServedBodiesAreBounded | dashboard.go:409-420 | in every reachable state a served body is at most 512 bytes and, if not empty, under one of the two validation paths |
| Sequential.CompleteIsRun | dns.go:97-105 | a handler run to its end without interruption is a run of the machine over SQLite |
| Sequential.CompleteDns | dns.go:97-120 | the whole effect and reply of a query for a test's name for each combination of failing statements |
| Sequential.CompleteHttp | http.go:116-136 | the whole effect and reply of a request to a test's host for each combination of failing statements |
| Sequential.CompletePage | dashboard.go:379-428 | a posted action on a running test executes its one statement, with its status |
| Sequential.DistinctOrder | smtp.go:96-101 | the deduplicated recipients are ordered by first occurrence |
| Store.Database.IsRunningTest | test_id.go:88-99 | true exactly for a test that exists and has no stop time |
| Store.Database.InsertTest | dashboard.go:301 | adds a running test, or leaves everything as it was if the ID exists |
| Store.Database.StopTest | dashboard.go:381 | sets the stop time of a running test, and nothing else |
| Store.Database.StopTestsStartedBefore | main.go:197-200 | sets the stop time of every running test started before the cutoff, and of no other |
| Store.Database.InsertDNSRecord | dashboard.go:390 | appends the record under a new row id, if the test exists |
| Store.Database.DeleteDNSRecord | dashboard.go:394 | deletes the row with that test and row id, if any |
| Store.Database.InsertHTTPFile | dashboard.go:421 | inserts the file if its key is free and reports whether a row was affected |
| Store.Database.DeleteHTTPFile | dashboard.go:398 | deletes the row with that test and row id, if any |
| Store.Database.InsertDNSRequest | dns.go:170 | appends one row to the DNS log |
| Store.Database.InsertHTTPRequest | http.go:128 | appends one row to the HTTP log |
| Store.Database.InsertSMTPRequest | smtp.go:115 | appends one row to the SMTP log |
| Servers.LookupDNSRecords | dns.go:123-157 | the loop that appends to, overwrites and leaves the answers computes the specified lookup, error exits included |
| Servers.BuiltinsOfApex | dns.go:59-69 | branch by branch, the built-in records of the type asked at the zone's own name |
| Servers.BuiltinsOfTest | dns.go:70-96 | branch by branch, the built-in records of the type asked at a test's name |
| Servers.AppendAddresses | dns.go:74-87 | the loops over the server's addresses append one record per address, in order |
| Servers.AnswerForNone | dns.go:59-69 | the reply at the zone's own name, and at names outside the naming scheme |
| Servers.AnswerForTest | dns.go:97-120 | check, lookup and insert give the reply and the tables of the machine's handler run undisturbed, for each combination of failing statements |
| Servers.AnswerQuestion | dns.go:57-121 | a question that is not refused is answered as by the machine's handler run undisturbed |
| Servers.ServeDNS | dns.go:40-121 | the reply and the final tables are those of the machine's handler run undisturbed |
| Servers.ServeTestHTTP | http.go:109-137 | the reply and the final tables are those of the machine's handler run undisturbed |
| Servers.ServeStartTest | dashboard.go:299-306 | starts the test drawn and redirects, or fails without effect |
| Servers.ServeTest | dashboard.go:370-430 | the status and the final tables are those of the machine's handler run undisturbed |
| Servers.CarryOut | dashboard.go:380-427 | each posted action executes its one statement; adding a file whose key is taken is a 400 |
| Servers.ServeHTTP | http.go:82-99 | the dispatch leads to the handler that the route names, and refused requests change nothing |
| Servers.CleanupTests | main.go:197-200 | stops exactly the running tests started more than six hours ago |
| Smtp.Session.Rcpt | smtp.go:72-80 | keeps the two lists equally long with each address parsing to the test beside it; an address outside the zone is refused without a trace |
| Smtp.Session.Data | smtp.go:81-107 | every row it adds has this session's sender and whole recipient list, and the peer, HELO, data and transport given, whatever fails; if nothing fails there is one row for each running test among the recipients, in order of first occurrence; the effect is that of the machine's delivery run undisturbed |
| Smtp.RecordSMTPRequest | smtp.go:109-119 | check and insert take the delivery past its first pending test |
| Smtp.SessionArrives | smtp.go:81-107 | every test of a session is addressed by one of its recipients, so its delivery can start |
| Smtp.DataDelivers | smtp.go:96-119 | the closed form of an undisturbed delivery without failures: one row for each distinct running test among the recipients, under consecutive row ids, each with the full recipient list, and nothing else changes |
| Smtp.MessageLeaves | smtp.go:96-119 | an undisturbed delivery, failing statements included, adds rows of its envelope and changes nothing else; without failures one for each running test among the recipients, in order of first occurrence |
| Delivery.RecordedAndDue | smtp.go:96-119 | over every interleaving: while none of its tests is started or stopped and its own statements succeed, what a query, request or message has recorded and what it has still to record are together what was due when it came in |
| Delivery.MessageIsRecorded | smtp.go:81-119 | a message dealt with so is recorded once for each running test among its recipients, in order of first occurrence, with the full recipient list, and for no other, whatever ran meanwhile |
| Delivery.QueryIsRecorded | dns.go:97-105 | a query for a running test's name dealt with so is recorded once, with the question asked |
| Delivery.RequestIsRecorded | http.go:116-136 | a request to a running test's host dealt with so is recorded once and answered 200 with the file published at its key when it was read, or the empty body |
| Delivery.LoggedAtMostOnce | smtp.go:96-101 | in any run, with any failures, stops and cleanups, no query, request or message is logged twice for a test |
| Delivery.LogsAreTrail | dns.go:159-175 | the three logs at the end of a run are those at its start followed by exactly what its handlers recorded, in order |

## Left out

- DecidesRecordsExactly: says nothing of files, for which the condition (`FilesKept`) is only shown to be sufficient: adding a removed key again can make the ends coincide.
- ServeHTTP: does not say what the pages that leave the database alone reply.
- Complete: the clock stands still during one uninterrupted call.
- The kentik and patricia tries, the prefix and AS name downloads, and the Google Public DNS list (bgp.go, cidr.go, dtp.go): library wrappers.
- Sockets, TLS and certificates (udp.go, cert.go, the listeners, getHTTPSConfig).
- Templates, scripts, the certificate search and the display helpers; a dashboard page without a write is a single status.
- JSON text, DNS packing, the remaining columns of the logs, Unicode case folding and the text form of SQLite timestamps.
- SQLite's numeric affinity for a row id posted as text other than decimal digits: such an id matches no row here.
- The text of error replies: their bodies are empty here.
- Failures before the first statement: a peer address that does not parse in DNS or SMTP counts as a failed insert or as no delivery.
- The randomness of generateTestID: the drawn ID is an input, and a collision makes the insert fail.
- The limits that the SMTP library enforces on recipients and message size, and its TLS and HELO handling.
- The endless ticker loop of cleanupTestsPeriodically: its cleanups are steps of the machine, and their hourly spacing is the hypothesis of the seven-hour bound.
