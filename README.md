# Prato Justo — a verified model of the donation and request core

Prato Justo matches donors who offer surplus food (*doações*) with requesters
(*solicitantes*). A requester claims a donation, and the donor accepts or
refuses the claim. Either party can cancel it or mark the food as collected,
and the two parties coordinate over a private chat. A concluded request can
then be rated by each party.

This project models that core in Dafny 4.11 and proves properties about it.

- **Request lifecycle.** A `Requests.RequestStore` class holds the request and
  donation maps and mutates them the way `SolicitacaoService` does (create or
  revive, overwrite status, accept and cancel pending siblings, refuse,
  collect and retire the donation). The status enum and its case-insensitive
  parser are modelled, and so are the repository finders. The guard chains of
  `DoacaoController` return HTTP-style outcomes.
- **Ratings.** The rating store, its JPQL finders, the average (an exact
  `real`, 0 without ratings) and the controller's guard chain.
- **Chat and realtime binding.** The chat record and its UUID token, the
  chat-repository queries, and the REST and STOMP send paths. Each send
  persists the message and delivers it to two user queues, modelled as a
  `map<string, seq<Payload>>` outbox. The CONNECT interceptor picks the
  bearer header first and the session attribute second, and binds the user id
  as the principal's name.
- **Uploads.** Extension checks, the `user_<id>`, `food_<id>` and
  `food_temp_<uuid>` names, URL guards, prefix pruning and renaming over a
  directory modelled as a `set<string>`.
- **Front-end logic.** The CEP formatting and the food form's validation and
  progress steps. Status classification on the profile, my-donations,
  requests and food-detail pages, with dates as integer day numbers. The
  notification badge, the navbar page matching, the API base URL, the
  "Como Doar" journey and typewriter, the chat client's state reducer and
  reconnect counter, and the rating form.

Strings are `seq<char>`. Clocks, random UUIDs, JWT validation and the network
are parameters of the operations that use them.

## Model

| member | source | states |
|---|---|---|
| RequestStatus.ValorsDistinct | src/main/java/com/TCC/Prato_Justo/Model/StatusSolicitacao.java:4-7 | Every status is one of the four constants, and the four wire strings differ even ignoring case. |
| RequestStatus.Search | src/main/java/com/TCC/Prato_Justo/Model/StatusSolicitacao.java:20-24 | The first status, in declaration order, whose wire string equals the text ignoring case; none exactly when no wire string matches. |
| RequestStatus.FromString | src/main/java/com/TCC/Prato_Justo/Model/StatusSolicitacao.java:19-25 | A matching status whenever one exists, and `SOLICITADA` when none does. |
| RequestStatus.FromStringValor | src/main/java/com/TCC/Prato_Justo/Model/StatusSolicitacao.java:15-24 | Round trip: parsing a status's own wire string gives that status back. |
| RequestStatus.FromStringIgnoresCase | src/main/java/com/TCC/Prato_Justo/Model/StatusSolicitacao.java:21 | Strings equal up to case parse to the same status. |
| RequestStatus.FromStringUpperCase | src/main/java/com/TCC/Prato_Justo/Model/StatusSolicitacao.java:21 | The upper-case form of each wire string parses to its status. |
| RequestStatus.Valor | src/main/java/com/TCC/Prato_Justo/Model/StatusSolicitacao.java:4-17 | Each status's wire string is non-empty and made of lower-case letters and `_`. |
| Requests.NewRequest | TCC-_-Prato-Justo-main/src/main/java/com/TCC/Prato_Justo/Model/Solicitacao.java:26-34 | A new request is pending, stamped with its creation time, with no update time, for the given donation and requester. |
| Requests.Stamped | TCC-_-Prato-Justo-main/src/main/java/com/TCC/Prato_Justo/Model/Solicitacao.java:65-68 | `setStatus` sets the status and refreshes the update time; donation, requester and creation time are kept. |
| Requests.RequestRecord.constructor | TCC-_-Prato-Justo-main/src/main/java/com/TCC/Prato_Justo/Model/Solicitacao.java:26-34 | The field defaults of a fresh entity are those of `NewRequest`. |
| Requests.RequestRecord.SetStatus | TCC-_-Prato-Justo-main/src/main/java/com/TCC/Prato_Justo/Model/Solicitacao.java:65-68 | The entity's new value is `Stamped` of its old value. |
| Requests.ByDonation | src/main/java/com/TCC/Prato_Justo/Interface/SolicitacaoRepository.java:15 | Exactly the requests whose donation matches, with their records unchanged. |
| Requests.ByRequester | src/main/java/com/TCC/Prato_Justo/Interface/SolicitacaoRepository.java:13 | Exactly the requests of that requester, with their records unchanged. |
| Requests.ByRequesterAndStatus | src/main/java/com/TCC/Prato_Justo/Interface/SolicitacaoRepository.java:17-19 | Exactly the requests matching both the requester and the status. |
| Requests.RequesterFinderPartition | src/main/java/com/TCC/Prato_Justo/Interface/SolicitacaoRepository.java:13-19 | Each request of a requester is in exactly one status bucket of the status finder. |
| Requests.FindByDonationAndRequester | src/main/java/com/TCC/Prato_Justo/Interface/SolicitacaoRepository.java:21-23 | With pairs unique: none exactly when the pair has no request, else the pair's only request. |
| Requests.CreateSpec | src/main/java/com/TCC/Prato_Justo/Service/SolicitacaoService.java:25-46 | Pairs stay unique. It succeeds iff the pair has no request or its request is cancelled. On failure the table is unchanged and the error is "already requested". On success the pair's only request is the result, it is pending, at most the new id is added, and every other request is unchanged. |
| Requests.CreatedRequestIsStamped | src/main/java/com/TCC/Prato_Justo/Service/SolicitacaoService.java:41-45 | A brand-new request already carries an update time equal to its creation time, because it goes through `setStatus`. |
| Requests.DonorCheck | src/main/java/com/TCC/Prato_Justo/Service/SolicitacaoService.java:75-87 | It passes iff the id exists, the actor is the donation's donor and the request is pending. The refusals come in order: not-found for an unknown id, not-donor for a wrong or missing donor, then not-pending for the donor of a request that is not pending. |
| Requests.AcceptSpec | src/main/java/com/TCC/Prato_Justo/Service/SolicitacaoService.java:89-101 | Same ids. The target is set in progress and stamped with the time. Every pending sibling on the same donation is cancelled and stamped, so none stays pending. Non-pending siblings and other donations' requests are untouched. Donation and requester are never changed. |
| Requests.AcceptKeepsPairsUnique | src/main/java/com/TCC/Prato_Justo/Service/SolicitacaoService.java:89-101 | Accepting keeps (donation, requester) pairs unique. |
| Requests.CancelSiblings | src/main/java/com/TCC/Prato_Justo/Service/SolicitacaoService.java:89-99 | The loop over the donation's requests (target set in progress first, pending siblings cancelled one at a time) yields exactly `AcceptSpec`. |
| Requests.TwoRequestsInProgress | src/main/java/com/TCC/Prato_Justo/Service/SolicitacaoService.java:25-46 | A concrete history (accept, revive the cancelled sibling with `criar`, accept it) ends with two requests of one active donation both in progress. So the service does not keep "one accepted request per donation". |
| Requests.CollectCheck | src/main/java/com/TCC/Prato_Justo/Service/SolicitacaoService.java:124-139 | It passes iff the id exists, the actor is the donor or the requester, and the status is in progress. The refusals come in order: not-found for an unknown id, not-party for anyone else, then not-in-progress for a party whose request is not in progress. |
| Requests.RequestStore.constructor | src/main/java/com/TCC/Prato_Justo/Service/SolicitacaoService.java:20-23 | The store starts valid, with no requests and the given donations. |
| Requests.RequestStore.Create | src/main/java/com/TCC/Prato_Justo/Service/SolicitacaoService.java:25-46 | Result and new table are those of `CreateSpec`, with the next database id; donations are unchanged; the store stays valid. |
| Requests.RequestStore.UpdateStatus | src/main/java/com/TCC/Prato_Justo/Service/SolicitacaoService.java:56-61 | An unknown id fails and changes nothing. Otherwise only that request changes, to `Stamped` with the new status, whatever its old status was. |
| Requests.RequestStore.Cancel | src/main/java/com/TCC/Prato_Justo/Service/SolicitacaoService.java:63-68 | An unknown id fails and changes nothing. Otherwise only that request becomes cancelled, whatever its old status was. |
| Requests.RequestStore.Accept | src/main/java/com/TCC/Prato_Justo/Service/SolicitacaoService.java:74-102 | A failing `DonorCheck` returns its failure and changes nothing. Otherwise the table becomes `AcceptSpec` and the accepted request is returned; the store stays valid. |
| Requests.RequestStore.Reject | src/main/java/com/TCC/Prato_Justo/Service/SolicitacaoService.java:104-121 | It uses the same checks as accepting. On success only the target becomes cancelled. |
| Requests.RequestStore.MarkCollected | src/main/java/com/TCC/Prato_Justo/Service/SolicitacaoService.java:123-150 | A failing `CollectCheck` changes nothing. Otherwise the request is concluded and its donation is made inactive, and nothing else changes. |
| DonationController.BearerToken | src/main/java/com/TCC/Prato_Justo/Controller/DoacaoController.java:104-105 | A token exists iff the header is present and starts with "Bearer "; the header is then "Bearer " followed by the token. |
| DonationController.Authenticate | src/main/java/com/TCC/Prato_Justo/Controller/DoacaoController.java:139-151 | A missing or non-bearer header or an invalid token gives 401. A valid token with no user gives 404. Otherwise it gives that user's id. |
| DonationController.Validate | src/main/java/com/TCC/Prato_Justo/Controller/DoacaoController.java:67-100 | No error iff the title, city and address are non-blank, a given expiry is after today, a given collection date is not before today, and expiry is after collection. The title is checked first, then the city. The expiry-after-collection refusal comes only after both single-date checks passed. |
| DonationController.CreateDonation | src/main/java/com/TCC/Prato_Justo/Controller/DoacaoController.java:67-111 | It is refused iff the form is invalid. A donor is attached iff the header carries a bearer token that is valid and resolves to a user, and then the donor is the authenticated user. |
| DonationController.UpdateDonation | src/main/java/com/TCC/Prato_Justo/Controller/DoacaoController.java:137-220 | Codes are 200/400/401/403/404, decided in guard order: an authentication failure passes its 401 or 404 through, then 404 for an unknown donation, 403 when the caller is not the donor, 400 for reactivating a donation with a concluded request, and 400 for an invalid form. Success iff authenticated, the donation exists and is the caller's, it does not reactivate a donation with a concluded request, and the form is valid. With a concluded request the applied form has `ativo = false`; without one the form is applied unchanged. Past the guards, a new image that differs from an existing old one deletes the old one, before validation, so a refused form loses it too; nothing else is deleted. |
| DonationController.UpdateDeletesImageOfRefusedForm | src/main/java/com/TCC/Prato_Justo/Controller/DoacaoController.java:181-189 | A concrete update whose title is missing is refused with 400, yet the donation's old image has already been deleted. |
| DonationController.RequestGate | src/main/java/com/TCC/Prato_Justo/Controller/DoacaoController.java:355-404 | Success iff authenticated, the donation exists, is active and is not the caller's own; then it yields the caller. Guards in order: authentication failures pass through, an unknown donation gives 404, an inactive one 400, and the donor requesting their own donation 400. |
| DonationController.RequestDonation | src/main/java/com/TCC/Prato_Justo/Controller/DoacaoController.java:351-434 | A gate refusal returns its code and changes nothing. Otherwise the table becomes `CreateSpec` for the caller. The reply is 200 with "solicitada" when the service succeeds, else 400. |
| DonationController.PartyGate | src/main/java/com/TCC/Prato_Justo/Controller/DoacaoController.java:474-503 | Codes are 401/403/404. An authentication failure passes its 401 or 404 through; an unknown request gives 404. Success iff authenticated, the request exists, and the caller is its requester or its donation's donor. Otherwise, for an existing request, 403. |
| DonationController.ViewRequest | src/main/java/com/TCC/Prato_Justo/Controller/DoacaoController.java:471-517 | The request is returned exactly when the party gate passes, and it is the stored record; otherwise the reply carries the gate's code. |
| DonationController.CancelRequest | src/main/java/com/TCC/Prato_Justo/Controller/DoacaoController.java:519-564 | A gate refusal returns its code and changes nothing. Otherwise 200, and only the request becomes cancelled, whatever its status. |
| DonationController.ListDonationRequests | src/main/java/com/TCC/Prato_Justo/Controller/DoacaoController.java:566-612 | An authentication failure passes its 401 or 404 through; an unknown donation gives 404. Success iff authenticated and the donation exists and is the caller's. It returns exactly `findByDoacaoId`. For another user's donation it gives 403. |
| DonationController.AcceptRequest | src/main/java/com/TCC/Prato_Justo/Controller/DoacaoController.java:614-647 | Authentication failures pass through and change nothing. A failing `DonorCheck` gives 400 and changes nothing. Otherwise 200 with "em_andamento", and the table becomes `AcceptSpec`. |
| DonationController.RejectRequest | src/main/java/com/TCC/Prato_Justo/Controller/DoacaoController.java:649-680 | Like accepting, with the same checks. Success gives 200 with "cancelada" and only the target is cancelled. |
| DonationController.CollectRequest | src/main/java/com/TCC/Prato_Justo/Controller/DoacaoController.java:682-713 | Authentication failures and a failing `CollectCheck` change nothing, and the check failure gives 400. Otherwise 200 with "concluida", the request is concluded and its donation made inactive. |
| Ratings.ByRequest | TCC-_-Prato-Justo-main/src/main/java/com/TCC/Prato_Justo/Interface/AvaliacaoSolicitacaoRepository.java:19-20 | Exactly the ratings of that request. |
| Ratings.ByRated | TCC-_-Prato-Justo-main/src/main/java/com/TCC/Prato_Justo/Interface/AvaliacaoSolicitacaoRepository.java:22-23 | Exactly the ratings that user received. |
| Ratings.ByRater | TCC-_-Prato-Justo-main/src/main/java/com/TCC/Prato_Justo/Interface/AvaliacaoSolicitacaoRepository.java:25-26 | Exactly the ratings that user gave. |
| Ratings.FindByRequestAndRater | TCC-_-Prato-Justo-main/src/main/java/com/TCC/Prato_Justo/Interface/AvaliacaoSolicitacaoRepository.java:28-30 | A rating of that request by that rater, or none exactly when there is no such rating. |
| Ratings.FindByRequestAndRaterUnique | TCC-_-Prato-Justo-main/src/main/java/com/TCC/Prato_Justo/Interface/AvaliacaoSolicitacaoRepository.java:28-30 | With one rating per (request, rater), the finder returns that rating, so its answer is unique. |
| Ratings.CountByRatedIsFinderSize | TCC-_-Prato-Justo-main/src/main/java/com/TCC/Prato_Justo/Interface/AvaliacaoSolicitacaoRepository.java:22-36 | The count query equals the size of `findByAvaliadoId`. |
| Ratings.AverageByRated | TCC-_-Prato-Justo-main/src/main/java/com/TCC/Prato_Justo/Interface/AvaliacaoSolicitacaoRepository.java:32-33 | Absent iff the user has no ratings; otherwise the average times the count is the sum of the scores. |
| Ratings.AverageWithinScale | TCC-_-Prato-Justo-main/src/main/java/com/TCC/Prato_Justo/Interface/AvaliacaoSolicitacaoRepository.java:32-33 | With every score in 1..5, a user's average lies in 1..5. |
| Ratings.QuotientBounds | TCC-_-Prato-Justo-main/src/main/java/com/TCC/Prato_Justo/Interface/AvaliacaoSolicitacaoRepository.java:32-33 | A sum between n and 5n, divided by n > 0, lies in 1..5. |
| Ratings.MeanForRated | TCC-_-Prato-Justo-main/src/main/java/com/TCC/Prato_Justo/Service/AvaliacaoSolicitacaoService.java:66-69 | It is 0 without ratings and the repository average otherwise, and within 1..5 when scores are in scale. |
| Ratings.CheckRating | TCC-_-Prato-Justo-main/src/main/java/com/TCC/Prato_Justo/Service/AvaliacaoSolicitacaoService.java:22-32 | It passes iff a score is given, it is in 1..5, and the rater has not rated the request. A missing or out-of-range score is refused before the duplicate check. |
| Ratings.RatingStore.constructor | TCC-_-Prato-Justo-main/src/main/java/com/TCC/Prato_Justo/Service/AvaliacaoSolicitacaoService.java:18-20 | The table starts valid and empty. |
| Ratings.RatingStore.Create | TCC-_-Prato-Justo-main/src/main/java/com/TCC/Prato_Justo/Service/AvaliacaoSolicitacaoService.java:22-52 | A failing check returns its error and stores nothing. Otherwise it appends one record carrying exactly the request, rater, rated user, score and comment given. Scores stay in 1..5 and there stays one rating per (request, rater). |
| RatingController.Parties | TCC-_-Prato-Justo-main/src/main/java/com/TCC/Prato_Justo/Controller/AvaliacaoSolicitacaoController.java:74-85 | The requester is a party, and the parties are exactly the requester and the donor, if any. |
| RatingController.RateGate | TCC-_-Prato-Justo-main/src/main/java/com/TCC/Prato_Justo/Controller/AvaliacaoSolicitacaoController.java:46-94 | Codes are 400/401/403/404. Authentication failures pass through; an unknown request gives 404; a non-concluded one gives 400. It passes iff the request is concluded, the caller and the rated user are both parties, and they differ; it then yields the caller. |
| RatingController.RatedIsTheOtherParty | TCC-_-Prato-Justo-main/src/main/java/com/TCC/Prato_Justo/Controller/AvaliacaoSolicitacaoController.java:73-94 | After the gate, the rater and the rated user are distinct and together are exactly the requester and the donor. |
| RatingController.Rate | TCC-_-Prato-Justo-main/src/main/java/com/TCC/Prato_Justo/Controller/AvaliacaoSolicitacaoController.java:42-110 | A gate failure returns its code and stores nothing. A service refusal gives 400 and stores nothing. Otherwise 200, and the stored record (the only one appended) carries the caller as rater. |
| RatingController.RatedSummary | TCC-_-Prato-Justo-main/src/main/java/com/TCC/Prato_Justo/Controller/AvaliacaoSolicitacaoController.java:132-146 | `total` equals the size of `findByAvaliadoId`. `media` is 0 without ratings and the repository average otherwise. With scores in scale, `media` is 0 only without ratings and lies in 1..5 otherwise. |
| Chats.NewChat | src/main/java/com/TCC/Prato_Justo/Model/Chat.java:17-101 | A fresh chat is active, created now, between the donor (`usuario1`) and the requester (`usuario2`) of the request, with a 36-character version-4 UUID token. |
| Chats.OtherParticipant | src/main/java/com/TCC/Prato_Justo/Service/ChatService.java:45-51 | The answer is one of the two users: `usuario2` when the caller's id is `usuario1`'s, else `usuario1`. |
| Chats.OtherParticipantSwaps | src/main/java/com/TCC/Prato_Justo/Service/ChatService.java:45-51 | Between two distinct users, a participant gets the other one, and asking from that side gives the caller back. |
| Chats.OutsiderGetsDonor | src/main/java/com/TCC/Prato_Justo/Service/ChatService.java:45-51 | A caller who is not in the chat gets `usuario1`, with no error. |
| Chats.LastMessage | src/main/java/com/TCC/Prato_Justo/Service/ChatService.java:54-65 | Empty exactly for an empty conversation, else its last message. |
| Chats.LastMessageAfterAppend | src/main/java/com/TCC/Prato_Justo/Service/ChatService.java:54-65 | After a message is appended to the conversation it is the last message. |
| Chats.PrependNewest | src/main/java/com/TCC/Prato_Justo/Interface/ChatRepository.java:18 | A chat no older than every element can head a newest-first list. |
| Chats.InsertByDate | src/main/java/com/TCC/Prato_Justo/Interface/ChatRepository.java:18 | Inserting into a newest-first list keeps it newest first and adds exactly that chat. |
| Chats.HeadIsNewest | src/main/java/com/TCC/Prato_Justo/Interface/ChatRepository.java:18 | The head of a newest-first list is no older than any element. |
| Chats.TailNewest | src/main/java/com/TCC/Prato_Justo/Interface/ChatRepository.java:18 | The tail of a newest-first list is newest first. |
| Chats.SortByDate | src/main/java/com/TCC/Prato_Justo/Interface/ChatRepository.java:18 | `ORDER BY criadoEm DESC`: newest first, and a permutation of its input. |
| Chats.FindByUser | src/main/java/com/TCC/Prato_Justo/Interface/ChatRepository.java:17-19 | Newest first; the same multiset as the active chats the user takes part in, and exactly those chats. `listarChatsDoUsuario` (ChatService.java:25-27) returns this. |
| Chats.Single | src/main/java/com/TCC/Prato_Justo/Interface/ChatRepository.java:15-28 | An `Optional` lookup: no row gives empty, one row gives it, more than one is an error. |
| Chats.FindBetween | src/main/java/com/TCC/Prato_Justo/Interface/ChatRepository.java:21-25 | A found chat is active and has both users as participants; nothing is found iff no active chat has the two users, in either role. |
| Chats.FindBetweenSymmetric | src/main/java/com/TCC/Prato_Justo/Interface/ChatRepository.java:21-25 | The lookup does not depend on the order of the two users. |
| Chats.FindByToken | src/main/java/com/TCC/Prato_Justo/Interface/ChatRepository.java:15 | A found chat has that token; nothing is found iff no chat has it. |
| Chats.TokenLookupAtMostOne | src/main/java/com/TCC/Prato_Justo/Interface/ChatRepository.java:15 | With the unique token column (Chat.java:17), the lookup never finds two chats, and it is empty iff no chat has the token. |
| Chats.FindByRequest | src/main/java/com/TCC/Prato_Justo/Interface/ChatRepository.java:28 | A found chat belongs to that request; nothing is found iff no chat belongs to it. |
| Chats.RequestLookupCanFail | src/main/java/com/TCC/Prato_Justo/Interface/ChatRepository.java:28 | Nothing makes the request column unique, so two chats of one request make the lookup fail. |
| ChatHub.FindById | src/main/java/com/TCC/Prato_Justo/Controller/ChatController.java:47-51 | A user is found iff the id is in the user table, and it is the stored user. |
| ChatHub.FindByEmail | src/main/java/com/TCC/Prato_Justo/Controller/ChatController.java:41-45 | A user is found iff the e-mail maps to a stored user, and it is that user. |
| ChatHub.Deliver | src/main/java/com/TCC/Prato_Justo/Controller/ChatController.java:73-84 | `convertAndSendToUser` appends the payload to that user's queue only; every other queue is unchanged. |
| ChatHub.DoubleDelivery | src/main/java/com/TCC/Prato_Justo/Controller/ChatController.java:72-84 | Recipient, then sender. Two distinct users each get the payload once, because distinct ids print differently. A user writing to themself gets it twice. No other queue changes. |
| ChatHub.SocketSender | src/main/java/com/TCC/Prato_Justo/Controller/ChatWebSocketController.java:34-55 | No authenticated context gives no sender. A bound principal is looked up by its user id, any other principal by its name taken as an e-mail. |
| ChatHub.ChatHub.constructor | src/main/java/com/TCC/Prato_Justo/Controller/ChatController.java:53-60 | No messages, empty queues, ids from 1. |
| ChatHub.ChatHub.Save | src/main/java/com/TCC/Prato_Justo/Controller/ChatController.java:53-60 | It appends one message, unread, with the next id, the two user ids, the content and the time; the queues are unchanged. |
| ChatHub.ChatHub.SendRest | src/main/java/com/TCC/Prato_Justo/Controller/ChatController.java:39-87 | Codes are 200/400/401/500. 401 iff the caller's e-mail resolves to no user. 200 iff the caller and the recipient both exist. Only on 200 is the message stored unread and the same "CHAT" payload (with `text`) delivered to the recipient and then the sender. Otherwise nothing changes. |
| ChatHub.ChatHub.SendFrame | src/main/java/com/TCC/Prato_Justo/Controller/ChatWebSocketController.java:30-109 | A frame without a sender, without a recipient id, or with an unknown recipient changes nothing. Otherwise the message is stored unread and one "CHAT" payload (without `text`) is delivered to the recipient and then to the sender. |
| ChatHub.GetConversation | src/main/java/com/TCC/Prato_Justo/Controller/ChatController.java:90-106 | 401 iff the caller is unknown. 400 iff the caller is known and the other user is not. Otherwise the conversation of the two. |
| ChatHub.Entry | src/main/java/com/TCC/Prato_Justo/Controller/ChatController.java:131-171 | The DTO of a chat carries its id, token, creation time and flag, the other participant by `obterOutroParticipante`, and the conversation's last message exactly when the conversation is not empty. |
| ChatHub.GetChats | src/main/java/com/TCC/Prato_Justo/Controller/ChatController.java:120-175 | 401 iff the caller is unknown; otherwise 200 with one entry per chat of `findByUsuario`, in order, each an active chat of the caller. |
| SessionAuth.StompAccessor.constructor | TCC-_-Prato-Justo-main/src/main/java/com/TCC/Prato_Justo/Config/WebSocketAuthInterceptor.java:34 | A fresh accessor has the frame's command, headers and session, and no user. |
| SessionAuth.HeaderToken | TCC-_-Prato-Justo-main/src/main/java/com/TCC/Prato_Justo/Config/WebSocketAuthInterceptor.java:41-46 | A token exists iff there is a first header value and it starts with "Bearer " (case-sensitive). The header is then "Bearer " followed by the token. |
| SessionAuth.Credential | TCC-_-Prato-Justo-main/src/main/java/com/TCC/Prato_Justo/Config/WebSocketAuthInterceptor.java:38-54 | The header token wins. Only without one is the session's `token` attribute used, and then a credential exists iff that attribute does. |
| SessionAuth.Bind | TCC-_-Prato-Justo-main/src/main/java/com/TCC/Prato_Justo/Config/WebSocketAuthInterceptor.java:56-76 | A principal iff the token validates, has a subject, and that e-mail is known to both the user-details service and the user table. It then carries that user's id, the e-mail and its authorities. |
| SessionAuth.PreSend | TCC-_-Prato-Justo-main/src/main/java/com/TCC/Prato_Justo/Config/WebSocketAuthInterceptor.java:33-86 | The message is returned unchanged. On CONNECT the session's user becomes the bound principal when binding succeeds and stays as it was otherwise. Other commands leave it untouched. |
| SessionAuth.LowercaseBearerFallsBackToSession | TCC-_-Prato-Justo-main/src/main/java/com/TCC/Prato_Justo/Config/WebSocketAuthInterceptor.java:43-54 | A "bearer " header in lower case is not a bearer header, so the session attribute is used. |
| UserPrincipal.Name | src/main/java/com/TCC/Prato_Justo/Config/UserPrincipal.java:19-23 | The name is the id in decimal: non-empty, all digits for a non-negative id, led by '-' otherwise. |
| UserPrincipal.NameIdentifiesUser | src/main/java/com/TCC/Prato_Justo/Config/UserPrincipal.java:19-23 | Two principals have the same name iff they have the same user id. |
| Uploads.CheckUpload | src/main/java/com/TCC/Prato_Justo/Service/FileUploadService.java:26-40 | Accepted iff the file is non-empty, declares an `image/...` type and is at most 5 MB. An empty file is always refused as empty, whatever else is wrong with it. |
| Uploads.Extension | src/main/java/com/TCC/Prato_Justo/Service/FileUploadService.java:50-54 | Empty without a name or a dot. Otherwise it starts with the last dot, holds no other dot, and the name ends with it. |
| Uploads.FoodName | src/main/java/com/TCC/Prato_Justo/Service/FileUploadService.java:149-171 | `food_<id><ext>` with a donation id; `food_temp_<uuid><ext>` without one, which starts with `food_temp_`. |
| Uploads.Stale | src/main/java/com/TCC/Prato_Justo/Service/FileUploadService.java:60-75 | Exactly the directory's names that start with the prefix, other than the new file. |
| Uploads.FileOf | src/main/java/com/TCC/Prato_Justo/Service/FileUploadService.java:96 | The last path segment of a URL holds no `/`. |
| Uploads.UploadDirs.constructor | src/main/java/com/TCC/Prato_Justo/Service/FileUploadService.java:18-19 | The two directories hold the given names. |
| Uploads.UploadDirs.PruneAvatars | src/main/java/com/TCC/Prato_Justo/Service/FileUploadService.java:60-75 | The avatar directory loses exactly its stale names; the food directory is unchanged. |
| Uploads.UploadDirs.PruneFoods | src/main/java/com/TCC/Prato_Justo/Service/FileUploadService.java:154-167 | The food directory loses exactly its stale names; the avatar directory is unchanged. |
| Uploads.UploadDirs.SaveAvatar | src/main/java/com/TCC/Prato_Justo/Service/FileUploadService.java:24-84 | A refused upload fails with the first failed check and changes nothing. An accepted one stores `user_<id><ext>`, deletes the user's other files and returns its `/uploads/avatars/` URL. After it, the only avatar with that user's prefix is the new file. |
| Uploads.UploadDirs.SaveFoodImage | src/main/java/com/TCC/Prato_Justo/Service/FileUploadService.java:110-182 | A refused upload changes nothing. With a donation id the file replaces every other file with that donation's prefix. Without one a temporary name is added. The `/uploads/alimentos/` URL is returned and avatars are untouched. |
| Uploads.UploadDirs.DeleteAvatar | src/main/java/com/TCC/Prato_Justo/Service/FileUploadService.java:89-105 | A URL that is absent, empty or not under `/uploads/` deletes nothing. Otherwise exactly its last segment leaves the avatar directory. |
| Uploads.UploadDirs.DeleteFoodImage | src/main/java/com/TCC/Prato_Justo/Service/FileUploadService.java:187-211 | The same guard; exactly the last segment leaves the food directory. |
| Uploads.UploadDirs.RenameFoodImage | src/main/java/com/TCC/Prato_Justo/Service/FileUploadService.java:216-262 | Only an existing temporary image under `/uploads/` moves, to `food_<id><ext>`, and its new URL is returned. In every other case the URL comes back unchanged and no file moves. |
| Uploads.RenamedIsNotTemporary | src/main/java/com/TCC/Prato_Justo/Service/FileUploadService.java:235-246 | A renamed image's name never starts with `food_temp_`. |
| Uploads.PruneReachesOtherDonation | src/main/java/com/TCC/Prato_Justo/Service/FileUploadService.java:155-159 | Saving donation 1's image deletes `food_12.png`, because the prefix test is a bare `startsWith`. |
| Uuid.HexDigit | src/main/java/com/TCC/Prato_Justo/Model/Chat.java:99-101 | A digit of the lower-case hexadecimal alphabet. |
| Uuid.HexValue | src/main/java/com/TCC/Prato_Justo/Model/Chat.java:99-101 | A value in 0..15, or -1 for a non-digit. |
| Uuid.HexValueOfDigit | src/main/java/com/TCC/Prato_Justo/Model/Chat.java:99-101 | Reading back a written hexadecimal digit gives its value. |
| Uuid.Hex | src/main/java/com/TCC/Prato_Justo/Model/Chat.java:99-101 | Two lower-case hexadecimal characters per byte. |
| Uuid.Unhex | src/main/java/com/TCC/Prato_Justo/Model/Chat.java:99-101 | Half as many bytes as characters. |
| Uuid.UnhexHex | src/main/java/com/TCC/Prato_Justo/Model/Chat.java:99-101 | Round trip: `Unhex(Hex(bs)) == bs`. |
| Uuid.Format | src/main/java/com/TCC/Prato_Justo/Model/Chat.java:99-101 | 36 characters with hyphens at positions 8, 13, 18 and 23. |
| Uuid.ParseFormat | src/main/java/com/TCC/Prato_Justo/Model/Chat.java:99-101 | Round trip: parsing the text form gives back the 16 bytes. |
| Uuid.FormatGroups | src/main/java/com/TCC/Prato_Justo/Model/Chat.java:99-101 | Each hyphen-separated group of the text is the hexadecimal of its bytes. |
| Uuid.Rejoin | src/main/java/com/TCC/Prato_Justo/Model/Chat.java:99-101 | The five byte groups concatenate back to the 16 bytes. |
| Uuid.Version4 | src/main/java/com/TCC/Prato_Justo/Model/Chat.java:99-101 | The version nibble is 4, the variant bits are 10, and the other 14 bytes are the random ones. |
| Uuid.RandomToken | src/main/java/com/TCC/Prato_Justo/Model/Chat.java:99-101 | A 36-character token whose version character is '4' and whose variant character is one of 8, 9, a, b. |
| Uuid.RandomTokenInjective | src/main/java/com/TCC/Prato_Justo/Model/Chat.java:99-101 | Equal tokens come from equal versioned bytes, so the text form loses no randomness. |
| FoodForm.FormatCep | src/main/resources/static/cadastro_alimento.js:193-202 | The digits of the result are the input's digits cut to 8. It has exactly one more character than those digits when there are more than five, and that character is the '-' at position 5; otherwise it is the digits alone. |
| FoodForm.DashedDigits | src/main/resources/static/cadastro_alimento.js:198-200 | The inserted dash drops out of the digits: the digits of `a-b` are `a` followed by `b`. |
| FoodForm.FormatCepIdempotent | src/main/resources/static/cadastro_alimento.js:193-202 | Formatting a formatted CEP leaves it unchanged. |
| FoodForm.FormattedCepSearchable | src/main/resources/static/cadastro_alimento.js:193-202 | Input with 8 or more digits formats to 9 characters holding 8 digits, the length the blur lookup requires. |
| FoodForm.FullAddress | src/main/resources/static/cadastro_alimento.js:266-282 | If street, number, city or state is blank, the address keeps its current value. Otherwise it is composed from the trimmed fields. |
| FoodForm.Compose | src/main/resources/static/cadastro_alimento.js:274-278 | The text is "street, number, city - state", with ", complement" after the number exactly when the complement is non-empty. |
| FoodForm.AllOkEveryField | src/main/resources/static/cadastro_alimento.js:544-586 | The controls all pass iff each control passes. |
| FoodForm.ErrorMark | src/main/resources/static/cadastro_alimento.js:554-585 | A control is marked with its own name exactly when it fails a check. |
| FoodForm.Flagged | src/main/resources/static/cadastro_alimento.js:544-586 | At most one name per control, and no name at all exactly when every control passes. |
| FoodForm.CheckFields | src/main/resources/static/cadastro_alimento.js:536-586 | Every control is visited. It flags exactly the failing ones, in order, and answers valid iff all pass. |
| FoodForm.ValidateForm | src/main/resources/static/cadastro_alimento.js:535-608 | Valid iff every control passes and the dates do not clash (expiry on or before collection). The flagged names are the failing controls, then `expiryDate` on a clash. A valid form moves the progress indicator to step 3 (`MarkAfter` with step 3); an invalid one leaves it unchanged. |
| FoodForm.CheckStepCompletion | src/main/resources/static/cadastro_alimento.js:164-190 | The indicator advances iff step 1 has all essential fields filled or step 2 has all location fields filled, and then to the next step. |
| FoodForm.MarkAfter | src/main/resources/static/cadastro_alimento.js:130-138 | Steps after the active one lose both classes. The active step gains `active`. Earlier steps gain `completed`. No class is ever removed from the active or an earlier step. |
| FoodForm.UpdateProgress | src/main/resources/static/cadastro_alimento.js:129-138 | Every step of the array becomes `MarkAfter` of its old classes; nothing else changes. |
| FoodForm.ForwardKeepsEarlierActive | src/main/resources/static/cadastro_alimento.js:131-134 | Showing step 2 and then step 3 leaves both marked active, since earlier steps never lose `active`. |
| FoodForm.ImageAccepted | src/main/resources/static/cadastro_alimento.js:285-302 | Accepted iff the type is JPEG, JPG, PNG or GIF and the size is at most 5 MB. |
| FoodForm.FieldOk | src/main/resources/static/cadastro_alimento.js:545-584 | An absent control passes; a present one that passes is not an empty required one and passes the CEP, state and quantity checks. |
| FoodForm.CepOk | src/main/resources/static/cadastro_alimento.js:571-577 | A non-empty CEP passes exactly when it holds eight digits; any other control, or an empty CEP, passes. |
| FoodForm.FormattedCepPasses | src/main/resources/static/cadastro_alimento.js:193-202 | A CEP typed through the formatter with at least eight digits passes validation. |
| FoodForm.DatesClash | src/main/resources/static/cadastro_alimento.js:588-598 | A missing date never clashes; with both dates, they clash exactly when the expiry is not after the collection. |
| FoodForm.FormValid | src/main/resources/static/cadastro_alimento.js:535-608 | The form is valid exactly when every control passes and the dates do not clash. |
| ProfilePage.GetDonationStatus | target/classes/static/paginaUsuario.js:477-507 | Each of the five statuses is characterised iff-wise, in the page's priority order. Delivered needs inactive plus a concluded request. In progress beats pending. Cancelled is inactive with no concluded, in-progress or pending request. Available is active with none in progress or pending. |
| ProfilePage.CountPositiveIffIn | target/classes/static/paginaUsuario.js:481-483 | A status filter is non-empty iff the status occurs among the requests. |
| ProfilePage.StatusLabel | target/classes/static/paginaUsuario.js:512-522 | Every status has a non-empty label. "Disponível" is shown exactly for an available donation, so the fallback never applies. |
| ProfilePage.StatusLabelInjective | target/classes/static/paginaUsuario.js:514-520 | Distinct statuses have distinct labels. |
| ProfilePage.UserTypeLabel | target/classes/static/paginaUsuario.js:339-347 | The four known types get their own labels, none of them "Usuário"; a missing or unknown type gets "Usuário". |
| ProfilePage.FirstChars | target/classes/static/paginaUsuario.js:291 | One character per non-empty word, in order, each the first character of that word; empty words contribute nothing. |
| ProfilePage.Initials | target/classes/static/paginaUsuario.js:291 | "U" without a name. Otherwise the upper-cased first letters of the first two non-empty words of the name split on spaces (fewer when there are fewer words). |
| ProfilePage.InitialsOfTwoWords | target/classes/static/paginaUsuario.js:291 | Example of the general contract: "ana souza" gives "AS". |
| ProfilePage.ResolveAvatar | target/classes/static/paginaUsuario.js:266-278 | An `http...` URL is kept. A relative one is appended to the API base with a `/` added only when the path lacks one. |
| ProfilePage.ResolveAvatarOneSlash | target/classes/static/paginaUsuario.js:277 | A resolved relative URL has exactly one slash between the base and the path. |
| ProfilePage.WithVersion | target/classes/static/paginaUsuario.js:281-282 | The URL is kept as a prefix. The version follows `&` when the URL already has a query and `?` otherwise. |
| ProfilePage.Location | target/classes/static/paginaUsuario.js:318-320 | "cidade - estado" when both are present, else whichever one is, else "Não informado"; the empty string counts as missing. |
| ProfilePage.StarRow | target/classes/static/paginaUsuario.js:593-597 | Five stars; star i is filled iff i < nota. |
| ProfilePage.FilledStars | target/classes/static/paginaUsuario.js:593-597 | The number of filled stars is the score clamped to 0..5. |
| ProfilePage.Recent | target/classes/static/paginaUsuario.js:590 | The first min(5, n) ratings, in order. |
| MyDonations.FilteredDonations | src/main/resources/static/minhas-doacoes.js:149-183 | `todas` gives the list itself. Any other tab gives, in order, exactly the donations it keeps: `ativo` true or false, expired, due within 0..3 days, or everything for an unknown tab. |
| MyDonations.UnknownFilterKeepsAll | src/main/resources/static/minhas-doacoes.js:181 | A tab name outside the five known ones shows every donation, in order. |
| MyDonations.TabsDisjoint | src/main/resources/static/minhas-doacoes.js:158-179 | No donation is both expired and urgent, nor both active and inactive. |
| MyDonations.FilterSplits | src/main/resources/static/minhas-doacoes.js:157-182 | Filtering keeps order: filtering a concatenation is concatenating the filtered parts. |
| MyDonations.CardBadge | src/main/resources/static/minhas-doacoes.js:285-307 | Expired iff the validity day is before today. Urgent iff it is 0 to 3 days ahead. Available otherwise, including without a date. |
| MyDonations.TabsAgreeWithBadge | src/main/resources/static/minhas-doacoes.js:166-179 | A donation is under `vencidas` iff its card says expired, and under `urgentes` iff its card says urgent. |
| MyDonations.Card | src/main/resources/static/minhas-doacoes.js:328-364 | With a concluded request the card shows "Inativa" and "Concluída" and no actions, whatever `ativo` says. Without one it is editable and shows "Ativa" or "Inativa" by `ativo`. |
| MyDonations.Conclusion | src/main/resources/static/minhas-doacoes.js:333-347 | The latest update time among the concluded requests that have one. It is present iff such a request exists, is one of their times, and no such request is later. |
| MyDonations.CalculateStats | src/main/resources/static/minhas-doacoes.js:512-520 | The total is the number of donations. The active counter is the size of the `ativas` tab, at most the total. |
| MyDonations.QuantityNonNegative | src/main/resources/static/minhas-doacoes.js:515 | With no negative quantity the summed quantity is not negative. |
| RequestsPage.Listed | src/main/resources/static/solicitacoes.js:281-294 | An array body is the list itself; a body that is neither an array nor an object yields no list. |
| RequestsPage.LoadRequests | src/main/resources/static/solicitacoes.js:261-313 | The page's answer is the reference fallback over the four endpoints in order. The first ok response holding a list wins, a 401 stops the search, and when no endpoint decides the list is empty. |
| RequestsPage.NoneDecidesMeansEmpty | src/main/resources/static/solicitacoes.js:308-313 | When no endpoint answers with a list or a 401, the page shows an empty list. |
| RequestsPage.FirstDecidingWins | src/main/resources/static/solicitacoes.js:273-299 | The first endpoint that answers with a list or a 401 decides the outcome, whatever later endpoints would answer. |
| RequestsPage.FilteredRequests | src/main/resources/static/solicitacoes.js:324-329 | `todas` gives the whole list. Any other tab gives exactly the requests whose status is that tab, never more than the list. |
| RequestsPage.CardStatus | src/main/resources/static/solicitacoes.js:370 | A present non-empty status is kept; a missing or empty one reads as `solicitada`. |
| RequestsPage.MissingStatusNotInItsTab | src/main/resources/static/solicitacoes.js:328-370 | A request without a status is drawn as `solicitada` but is missing from the `solicitada` tab. |
| RequestsPage.StatusLabel | src/main/resources/static/solicitacoes.js:418-425 | The four known statuses get their labels; any other status, or none, falls back to "Solicitada". |
| RequestsPage.Actions | src/main/resources/static/solicitacoes.js:513-538 | "View" is always last. Chat and collect appear iff in progress. Cancel appears iff in progress or requested. |
| RequestsPage.CopiesDifferOnMissingStatus | TCC-_-Prato-Justo-main/src/main/resources/static/solicitacoes.js:224-381 | Without a status the newer copy offers cancelling, via its `solicitada` default, and the older copy does not. |
| RequestsPage.CalculateStats | src/main/resources/static/solicitacoes.js:552-566 | The total is the list length. Pending counts requested plus in-progress. Approved counts concluded. Each matches the corresponding tab sizes. |
| RequestsPage.StatsBounded | src/main/resources/static/solicitacoes.js:552-566 | Pending plus approved never exceeds the total. |
| RequestsPage.ChatLink | src/main/resources/static/solicitacoes.js:700-706 | Navigation happens iff the donor id is present and not 0 (falsy), to `chat.html?userId=...`. |
| RequestsPage.Fallback | src/main/resources/static/solicitacoes.js:272-313 | The login-again state comes only from an endpoint that answered 401, and a non-empty list shown is exactly the list some endpoint's ok body held. |
| FoodDetails.GetStatusInfo | src/main/resources/static/detalhes-alimento.js:587-606 | "Vencido" iff the validity day is before today. "Urgente" iff it is 0 to 3 days ahead. Otherwise, including without a date, "Disponível" with class `available`. |
| FoodDetails.StatusAgreesWithCard | src/main/resources/static/detalhes-alimento.js:587-606 | The details page and the donor's card give every validity day the same expired or urgent verdict. |
| FoodDetails.DaysRemaining | src/main/resources/static/detalhes-alimento.js:611-632 | "Não informado" without a date, "Vencido" when past, "Vence hoje" on the day, "1 dia" the day before, else "<n> dias". |
| FoodDetails.DaysRemainingDistinguishes | src/main/resources/static/detalhes-alimento.js:629-631 | Two different day counts above one never produce the same text. |
| FoodDetails.Trunc | src/main/resources/static/detalhes-alimento.js:567 | JavaScript truncation: the floor for non-negative numbers, rounding toward zero for negative ones. |
| FoodDetails.Repeat | src/main/resources/static/detalhes-alimento.js:571-579 | n copies of one star (none when n is not positive). |
| FoodDetails.GetStars | src/main/resources/static/detalhes-alimento.js:565-582 | The row is floor(rating) full stars, a half star when `rating % 1` is at least one half, then the remaining empty stars. |
| FoodDetails.AppendStars | src/main/resources/static/detalhes-alimento.js:571-579 | One loop: the prefix followed by n stars of the kind. |
| FoodDetails.RepeatSnoc | src/main/resources/static/detalhes-alimento.js:571-573 | Adding one more star to n stars gives n+1 stars. |
| FoodDetails.FiveStars | src/main/resources/static/detalhes-alimento.js:565-568 | Every rating from 0 to 5 is drawn with exactly five stars. |
| FoodDetails.StarCountIsLength | src/main/resources/static/detalhes-alimento.js:565-579 | The row `GetStars` draws has `StarCount` stars. |
| FoodDetails.FoodTypeLabel | src/main/resources/static/detalhes-alimento.js:637-651 | Never empty. A missing or empty type gives "Alimento". A non-empty unknown type is shown as is. |
| FoodDetails.UserTypeLabel | src/main/resources/static/detalhes-alimento.js:656-665 | A missing or unknown type reads "Pessoa Física"; `EMPRESA` reads "Empresa". |
| FoodDetails.AddressLine | src/main/resources/static/detalhes-alimento.js:185-195 | With a street the line is the street, then ", number" when a number is given, then " - complement" when a complement is given. Otherwise it is the free address, else "Endereço não informado". |
| FoodDetails.CityLine | src/main/resources/static/detalhes-alimento.js:197-204 | With a city the line is the city, then " - state" when a state is given, then " \| CEP: cep" when a CEP is given; "Cidade não informada" without a city. |
| FoodDetails.StreetWinsOverAddress | src/main/resources/static/detalhes-alimento.js:187-192 | When a street is given, the free-form address field does not affect the first line. |
| FoodDetails.RequestButtonShown | src/main/resources/static/detalhes-alimento.js:226-248 | Without a login nothing changes. Otherwise the button is hidden iff both ids are present, non-zero and equal. |
| Badge.NoWireStatusIsPending | target/classes/static/notification-badge-manager.js:168-171 | None of the four statuses the server sends, once lower-cased, is `pendente`, `pending` or `aguardando`. |
| Badge.PendingOf | target/classes/static/notification-badge-manager.js:168-173 | The pending count of a list never exceeds its length. |
| Badge.FromEndpoints | target/classes/static/notification-badge-manager.js:156-179 | A count comes back iff some endpoint answers with an ok list; otherwise none does and the search falls through. |
| Badge.PendingFromDonations | target/classes/static/notification-badge-manager.js:189-231 | 0 when the donation list cannot be had. Otherwise the sum, over the donations, of the pending requests of each list that was fetched; failed ones are skipped. |
| Badge.PendingCount | target/classes/static/notification-badge-manager.js:143-187 | The first endpoint that lists decides the count. When none does, the per-donation sum is used, or 0 without a donation list. |
| Badge.Listed | target/classes/static/notification-badge-manager.js:212-218 | A fetched list is itself; a failed fetch lists nothing. |
| Badge.SumIsZeroForWireStatuses | target/classes/static/notification-badge-manager.js:212-218 | When every request carries a status the server sends, the per-donation sum is 0. |
| Badge.NoneCounted | target/classes/static/notification-badge-manager.js:168-173 | A list with no pending request counts 0. |
| Badge.BadgeText | target/classes/static/notification-badge-manager.js:233-254 | Hidden iff the count is at most 0. Shown as "99+" above 99, else as the decimal count, always 1 to 3 characters. |
| Badge.TwoDigits | target/classes/static/notification-badge-manager.js:242 | A count below 100 prints in at most two digits. |
| Badge.DropdownText | target/classes/static/notification-badge-manager.js:113-141 | Hidden iff the count is at most 0; "1 pendente" for one, "<n> pendentes" for more. |
| Badge.UpdateBadge | target/classes/static/notification-badge-manager.js:84-111 | Without a token both the badge and the dropdown are hidden. With one both show the count, and they are hidden or shown together. |
| Badge.IsPending | target/classes/static/notification-badge-manager.js:168-171 | A request is pending exactly when it has a status equal, ignoring case, to `pendente`, `pending` or `aguardando`. |
| Badge.SumCoversFetched | target/classes/static/notification-badge-manager.js:205-222 | Every donation whose request list was fetched contributes its whole pending count to the sum, and the sum is 0 when no list could be fetched. |
| Navbar.BeforeFirst | target/classes/static/navbar-manager.js:25 | The part before the first separator: a prefix of the text holding no separator, followed in the text by the separator unless it is the whole text. |
| Navbar.CurrentPage | target/classes/static/navbar-manager.js:14-34 | An empty path, or one ending in `/`, gives `index.html`. Otherwise the page is the lower-cased part of the last path segment before its first `?` or `#`; it holds no `/`, `?`, `#` or capital letter. |
| Navbar.SlashEndLeavesNothing | target/classes/static/navbar-manager.js:17-22 | A path ending in `/` has an empty last segment, so it falls back to `index.html`. |
| Navbar.CutIsClean | target/classes/static/navbar-manager.js:25-28 | A last segment cut at `?` and then `#` and lower-cased holds none of `/?#` and no capital. |
| Navbar.LowerKeeps | target/classes/static/navbar-manager.js:28 | Lower-casing creates no character that is not a letter. |
| Navbar.PageMap | target/classes/static/navbar-manager.js:56-70 | Each of the thirteen known pages maps to at least two hrefs to try. |
| Navbar.EmptyFileMatchesEveryPage | target/classes/static/navbar-manager.js:96-98 | A link whose file name is empty passes the fallback test for every page, since every page includes the empty name. |
| Navbar.IndexIn | target/classes/static/navbar-manager.js:79 | The first link whose href equals the target exactly; none iff no link carries it. |
| Navbar.FirstExact | target/classes/static/navbar-manager.js:78-81 | The link found is the first one carrying the earliest target, in the map's order, that some link carries; none iff no target is carried by any link. |
| Navbar.Matches | target/classes/static/navbar-manager.js:90-101 | One fallback verdict per link. |
| Navbar.LastTrue | target/classes/static/navbar-manager.js:90-101 | The last position that passes; none iff no position passes. |
| Navbar.Chosen | target/classes/static/navbar-manager.js:73-103 | A link is chosen only on a known page, and it is one of the links. |
| Navbar.ChosenAmong | target/classes/static/navbar-manager.js:73-103 | Without targets nothing is chosen; a chosen index is within the links. |
| Navbar.ExactMatchWins | target/classes/static/navbar-manager.js:78-84 | On a known page, when some link carries one of its hrefs exactly, a link carrying one of those hrefs is chosen and the fallback is not used. |
| Navbar.FallbackIsLastMatch | target/classes/static/navbar-manager.js:84-102 | Without an exact match the chosen link is the last that passes the fallback test, and nothing is chosen when none passes. |
| Navbar.Hrefs | target/classes/static/navbar-manager.js:91 | The hrefs of the links, in order. |
| Navbar.NavbarManager.constructor | target/classes/static/navbar-manager.js:39-42 | The manager holds the page's links, with the dropdown unmarked. |
| Navbar.NavbarManager.ClearMarks | target/classes/static/navbar-manager.js:49-53 | Every link loses `active` and `aria-current`, and nothing else about it changes. |
| Navbar.NavbarManager.MarkActivePage | target/classes/static/navbar-manager.js:47-121 | Hrefs are unchanged. A link has `active` and `aria-current` iff it is the one `Chosen` names, so at most one link is marked. The dropdown is marked on its four pages and kept otherwise. |
| Navbar.NavbarManager.MarkLinks | target/classes/static/navbar-manager.js:48-111 | Hrefs are unchanged. Exactly the link `Chosen` names carries both marks. |
| Navbar.SameHrefs | target/classes/static/navbar-manager.js:49-53 | Clearing the marks does not change which hrefs the links carry. |
| Navbar.ExactIndex | target/classes/static/navbar-manager.js:77-81 | The exact pass finds what `FirstExact` specifies. |
| Navbar.FallbackIndex | target/classes/static/navbar-manager.js:84-102 | The fallback pass ends at what `LastTrue` specifies: each passing link replaces the previous choice. |
| Navbar.CutStopsAtMark | target/classes/static/navbar-manager.js:25 | Cutting at `?` and then at `#` keeps the prefix of the segment that holds neither mark and is followed by one of them or by the end. |
| Navbar.FallbackMatch | target/classes/static/navbar-manager.js:88-99 | A link whose href equals the page up to case always passes the fallback test. |
| Navbar.Normalized | target/classes/static/navbar-manager.js:88-93 | A normalized name holds no `_` and no `-`. |
| Navbar.RemoveAllKeeps | target/classes/static/navbar-manager.js:88 | Removing every occurrence of a character leaves exactly the text's other characters. |
| Navbar.NormalizedCharacters | target/classes/static/navbar-manager.js:88-93 | A normalized name holds exactly the characters of the name without its `.html`, other than `_` and `-`. |
| Navbar.SameUpToCaseContains | target/classes/static/navbar-manager.js:96 | A lower-cased href equal to the lower-cased page contains it. |
| ApiConfig.ApiPort | src/main/resources/static/api-config.js:16-30 | On localhost or 127.0.0.1 the port is ":8080". Elsewhere it is empty when the page names no port, 80 or 443. It is always empty or starts with ':'. |
| ApiConfig.KeepsProtocolAndHost | src/main/resources/static/api-config.js:8-35 | The address is the page's `protocol//hostname` followed by nothing or by a `:port` suffix. |
| ApiConfig.RemoteUsesPageOrigin | src/main/resources/static/api-config.js:21-33 | Away from a local host, unless the page names port 80 or 443, the API address is the page's own origin. |
| ApiConfig.LocalIgnoresPagePort | src/main/resources/static/api-config.js:18-20 | On a local host the address does not depend on the page's port, and is the origin with port 8080. |
| ApiConfig.Config.constructor | src/main/resources/static/api-config.js:37-38 | `API_BASE_URL` is worked out once, from the location, when the script loads. |
| ApiConfig.ApiBaseUrl | src/main/resources/static/api-config.js:8-35 | On localhost or 127.0.0.1 the address is the page's `protocol//hostname` with `:8080`; elsewhere it is `protocol//hostname` alone when the page names no port, 80 or 443, and the page's own origin otherwise. |
| Journey.ProgressWidth | src/main/resources/static/Como_Doar.js:408-414 | The width drawn is always between 0 and 100 percent. |
| Journey.WidthFollowsStep | src/main/resources/static/Como_Doar.js:407-410 | Within the journey the width is 0 at the first step and 100 at the last, and strictly grows with the step. |
| Journey.ProgressView | src/main/resources/static/Como_Doar.js:417-423 | Marker i is active iff i+1 is at most the current step. |
| Journey.ContentView | src/main/resources/static/Como_Doar.js:426-432 | Content i is active iff i+1 is the current step. |
| Journey.ExactlyOneContent | src/main/resources/static/Como_Doar.js:417-432 | Within the journey exactly one content is shown, and the active markers are exactly those up to it. |
| Journey.Journey.constructor | src/main/resources/static/Como_Doar.js:6-8 | The journey starts at step 1 of 4. |
| Journey.Journey.UpdateJourney | src/main/resources/static/Como_Doar.js:404-452 | Every marker and content is redrawn from the step. Previous is disabled iff at step 1, next reads "Finalizar" iff at the last step, and the width follows the step. |
| Journey.Journey.Next | src/main/resources/static/Como_Doar.js:329-338 | Before the last step it moves one forward and redraws the markers, contents, buttons and width from the new step. On the last step it completes the journey and stays, leaving every marker, content, button state and the width as they were. |
| Journey.Journey.Prev | src/main/resources/static/Como_Doar.js:340-346 | After the first step it moves one back and redraws the markers, contents, buttons and width from the new step. On the first step nothing changes: markers, contents, button states and width stay. |
| Journey.TitlesAreTypeable | src/main/resources/static/Como_Doar.js:624-628 | Three titles, none of them empty. |
| Journey.Typewriter.constructor | src/main/resources/static/Como_Doar.js:630-633 | Nothing is shown, typing starts at the first title, and one call of `type` is scheduled. |
| Journey.Typewriter.Type | src/main/resources/static/Como_Doar.js:635-660 | The shown title stays a prefix of the current text. Paused, the call changes nothing and schedules nothing. Otherwise it adds (or removes) one character and schedules the next call. A fully typed text pauses, and a fully deleted one moves to the next title cyclically. |
| Journey.Typewriter.Resume | src/main/resources/static/Como_Doar.js:650-653 | The pause's timer switches to deleting and keeps the title, with no call of `type` scheduled. |
| Journey.Typewriter.ResumeTyping | src/main/resources/static/Como_Doar.js:650-653 | The corrected timer switches to deleting and schedules the next call of `type`. |
| Journey.FirstTitleStalls | src/main/resources/static/Como_Doar.js:635-663 | As written, once the first title is typed and paused, it stays on the screen with no call of `type` pending. |
| Journey.FirstTitleResumes | src/main/resources/static/Como_Doar.js:635-663 | With the corrected timer, the next call deletes the last character of the first title. |
| RatingClient.FindRequest | src/main/resources/static/avaliacao-solicitacao.js:59 | The first request of the list with the id (every earlier one has another id), or none iff no request of the list has it. |
| RatingClient.ResolveRequest | src/main/resources/static/avaliacao-solicitacao.js:37-62 | The handed-over request wins, then the endpoint's answer, then the match in the user's own list. None iff all three fail. |
| RatingClient.FirstBy | src/main/resources/static/avaliacao-solicitacao.js:81-85 | The first rating of the list given by the user (no earlier one is theirs), or none iff the user gave none. |
| RatingClient.RatedId | src/main/resources/static/avaliacao-solicitacao.js:69-73 | The donor rates the requester; anyone else rates the donor. |
| RatingClient.Prepare | src/main/resources/static/avaliacao-solicitacao.js:3-94 | Without a token nothing opens; a user that cannot be fetched or a request that cannot be found stops it. With both, it stops exactly when the rated user's id is missing or 0. Otherwise the form opens for that user when the user has not rated yet, and an earlier rating by the user is shown instead when there is one. |
| RatingClient.RatesTheOtherParty | src/main/resources/static/avaliacao-solicitacao.js:69-90 | Between two distinct parties the form always rates the other party of the request, never the user. |
| RatingClient.NoSecondForm | src/main/resources/static/avaliacao-solicitacao.js:80-87 | A user who has already rated gets their earlier rating, never a second form. |
| RatingClient.RatingText | src/main/resources/static/avaliacao-solicitacao.js:229-241 | Scores 1 to 5 have their own labels; any other value shows the prompt. |
| RatingClient.RatingTextInjective | src/main/resources/static/avaliacao-solicitacao.js:230-236 | Different scores have different labels. |
| RatingClient.RatingForm.constructor | src/main/resources/static/avaliacao-solicitacao.js:113 | No score is chosen at first. |
| RatingClient.RatingForm.UpdateStars | src/main/resources/static/avaliacao-solicitacao.js:215-227 | Star i is filled iff i < rating. |
| RatingClient.RatingForm.Click | src/main/resources/static/avaliacao-solicitacao.js:175-179 | Clicking star i chooses score i+1, fills exactly the stars up to it and shows its label. |
| RatingClient.RatingForm.Hover | src/main/resources/static/avaliacao-solicitacao.js:180-182 | Hovering star i previews i+1 filled stars without changing the score. |
| RatingClient.RatingForm.Leave | src/main/resources/static/avaliacao-solicitacao.js:185-187 | Leaving redraws exactly the chosen score. |
| RatingClient.RatingForm.Submit | src/main/resources/static/avaliacao-solicitacao.js:190-198 | Refused iff no score is chosen; otherwise the chosen score, from 1 to the number of stars, is sent. |
| ChatClient.ChatIndex | src/main/resources/static/chat.js:728 | The chat found by id is the first chat with that id; none means no chat has it. |
| ChatClient.UserChatIndex | src/main/resources/static/chat.js:839 | The first chat of that user, as `find` returns it; none means no chat belongs to that user. |
| ChatClient.MessageIndex | src/main/resources/static/chat.js:792 | The message found by id is the first message with that id; none means no message has it. |
| ChatClient.Bumped | src/main/resources/static/chat.js:757-766 | Recording a message for another chat keeps the number of chats. |
| ChatClient.TotalUnreadUpdate | src/main/resources/static/chat.js:762-765 | Replacing one chat changes the total unread count by exactly the difference of that chat's counters. |
| ChatClient.BumpAddsOne | src/main/resources/static/chat.js:757-766 | A message for a known chat that is not open raises the total unread count by exactly one; for an unknown chat the list is unchanged. |
| ChatClient.BumpTouchesOne | src/main/resources/static/chat.js:762-765 | A message for another chat leaves every chat except the first one with that id unchanged. |
| ChatClient.WithStatus | src/main/resources/static/chat.js:790-797 | A status update keeps the number of messages. |
| ChatClient.StatusUpdateTouchesOne | src/main/resources/static/chat.js:790-797 | A status update for an unknown id changes nothing; otherwise only the first message with that id changes, and only its status, which becomes the new one. |
| ChatClient.Previewed | src/main/resources/static/chat.js:727-734 | Updating a chat preview keeps the number of chats and the total unread count; the first chat with that id gets the text as its last message and nothing else of it or of any other chat changes; an unknown chat leaves the list alone. |
| ChatClient.TempIndex | src/main/resources/static/chat.js:631-648 | After pushing the temporary message, the index found for its id is at most the old length and every earlier message has another id. |
| ChatClient.PushedIndex | src/main/resources/static/chat.js:639-648 | Searching the pushed list for the temporary id always finds a message, at the temporary index. |
| ChatClient.AfterSend | src/main/resources/static/chat.js:639-680 | A send, whether the request answered or failed and whether a later step threw, leaves exactly one message more than before. |
| ChatClient.FreshSendAppends | src/main/resources/static/chat.js:639-680 | When no earlier message shares the temporary id, a send appends the answer; a later throw marks it as an error with the failure suffix only when the answer kept the temporary id. |
| ChatClient.SendTouchesOne | src/main/resources/static/chat.js:648-680 | Without a later throw, a send never changes any message other than the one at the temporary index. |
| ChatClient.Temporary | src/main/resources/static/chat.js:631-637 | The temporary message's id is `temp-` followed by the time stamp, and it carries the text and the status sending. |
| ChatClient.Settle | src/main/resources/static/chat.js:639-680 | The message list after the send is the reference one: push, replace by the answer, and on a later throw mark the message still carrying the temporary id. |
| ChatClient.ChatState.constructor | src/main/resources/static/chat.js:351-360 | The client starts with no open chat, no messages, no chats and no typing indicator. |
| ChatClient.ChatState.HandleMessage | src/main/resources/static/chat.js:749-802 | A new message for the open chat is appended; one for another chat updates the preview and bumps the unread counter; typing events show or hide the indicator only for the open chat; presence events set the first chat of that user and the header's flag when that chat is open; a status update changes only that message; the typing indicator changes only on typing events and the header's flag only on presence events; anything else changes nothing. |
| ChatClient.ChatState.SetOnline | src/main/resources/static/chat.js:837-849 | The first chat of that user gets the new online flag, and the header follows it only when that chat is open; with no such chat nothing changes. |
| ChatClient.ChatState.SendMessage | src/main/resources/static/chat.js:618-688 | A blank text or no open chat changes nothing; otherwise the messages are the reference send with the API's answer, and the preview is updated exactly when no later step threw. |
| ChatClient.ChatState.LoadChat | src/main/resources/static/chat.js:492-553 | Reopening the open chat changes nothing. Opening another chat makes it current, shows a known chat's online flag in the header, zeroes its unread counter and leaves every other chat alone. It hides the rebuilt typing indicator and shows the history the API answers. |
| ChatClient.OpeningClearsUnread | src/main/resources/static/chat.js:515-520 | Opening a chat lowers the total unread count by exactly that chat's counter. |
| ChatClient.StatusText | src/main/resources/static/chat.js:181-190 | The status is disconnected exactly when there is no socket or it is closed, and connected exactly when it is open. |
| ChatClient.SendIffConnected | src/main/resources/static/chat.js:174-190 | A message can be sent exactly when the status reads connected. |
| ChatClient.Connection.constructor | src/main/resources/static/chat.js:93-157 | Creating the connection opens a socket that is connecting, with no attempts made and no retry pending. |
| ChatClient.Connection.OnOpen | src/main/resources/static/chat.js:105-108 | Opening resets the attempt counter. |
| ChatClient.Connection.OnClose | src/main/resources/static/chat.js:131-143 | Closing schedules a retry exactly when fewer than five attempts were made, and keeps the counter. |
| ChatClient.Connection.RetryFires | src/main/resources/static/chat.js:137-141 | The retry timer adds one attempt and opens a new connecting socket. |
| ChatClient.Connection.Reconnect | src/main/resources/static/chat.js:167-173 | A manual reconnect resets the counter and opens a new connecting socket. |
| ChatClient.Connection.Disconnect | src/main/resources/static/chat.js:161-166 | Disconnecting drops the socket and keeps the counter. |
| Common.FirstIndex | src/main/resources/static/chat.js:648 | Array `findIndex`/`find`: the index returned is the first element satisfying the predicate; none means no element satisfies it. |
| ChatClient.LocalMessage | src/main/resources/static/chat.js:340-347 | The local copy's id is `local-` followed by the time stamp, and it carries the text, the sender and the status sent. |
| ChatClient.LocalIsNotTemporary | src/main/resources/static/chat.js:340-347 | A local copy's id never equals a temporary message's id, whatever the time stamps. |
| ChatClient.SendAnswer | src/main/resources/static/chat.js:37-63 | The API's send answers with the server's copy, and when the request fails with a local copy of the text that reads as sent; it never fails. |
| ChatClient.FailedRequestReadsSent | src/main/resources/static/chat.js:37-63 | When the request fails, the message list ends with the local copy, which reads as sent, even when a later step throws: a failed send never shows as an error. |
| ChatClient.MarkedFailed | src/main/resources/static/chat.js:671-680 | The catch branch keeps the number of messages and changes nothing when no message carries the temporary id. |
| ChatClient.MockHistory | src/main/resources/static/chat.js:235-293 | The fallback history has five messages for chat 1, two for chat 2 and none for any other chat. |
| ChatClient.LoadedHistory | src/main/resources/static/chat.js:11-34 | The API's history load answers with the server's messages, and when the request fails with the demo conversation, which is empty for every chat but 1 and 2; it never fails. |
| ChatClient.ChatState.Post | src/main/resources/static/chat.js:631-688 | After the checks, the messages are the reference send with the API's answer, and the preview is updated exactly when no later step threw; the open chat stays. |

## Left out

- I/O of every kind: `fetch`, `localStorage`, DOM updates, `alert`/`confirm`, custom events and redirects. The client operations take the server's answer as a parameter, `None` where the request fails. The chat page's API wrapper catches its own failures: `sendMessage` then answers with a local copy that reads as sent (`ChatClient.FailedRequestReadsSent`), and `fetchHistory` with the demo conversation of `getMockHistory`.
- Timers: `setTimeout`, `setInterval`, animation frames, the 30-second badge polling and the 3-second reconnect delay. A pending timer is a flag or counter, and firing it is a method call.
- Concurrency: two racing `aceitar` calls on the same donation, and interleavings of `await`s in the browser. The model is sequential.
- Code not part of this model: `JwtUtil`, `AuthService`, `UserDetailsService`, `MensagemRepository.conversaEntre` and `findContacts`, and `DoacaoService.atualizar`. Their results are parameters.
- `UUID.randomUUID` and the clocks `LocalDate.now` / `LocalDateTime.now`: parameters. Today is an integer day number.
- JSON encoding and decoding, request bodies, and the generic 500 branches that catch any exception.
- Floating point: the impact simulator and the particle, confetti and counter animations of `Como_Doar.js`, the `toFixed` total quantity, and percentage widths beyond the journey bar. Averages and star counts use exact `real`s.
- Case folding and whitespace trimming cover ASCII only; Java and JavaScript fold and trim the whole of Unicode.
- Spring wiring: security filter chains, the broker configuration and CORS. WebSocket session attributes other than `token`.
- Chat DTO fields that are copies of stored values (names, avatars); `getContacts`.
- The file system under `FileUploadService`: only file names are modelled, not byte contents, `mkdirs` or I/O failures.
- The profile page's and my-donations page's loaders, which overwrite fields with fetched lists. Only the pure status, label and count logic over those lists is modelled.
- `login.js`, `index.js`, `porqueDoar.js` and `Sobre.js`: presentation, navigation and `Math.random`.
- The JSON-parse `catch` of `checkIfUserIsOwner`; the owner decision is modelled on the parsed user.
- ChatClient.ChatState.LoadChat: the catch branch of `loadChat`, reached only when rendering throws, only changes the loading placeholder and is not modelled; neither is the `markAsRead` call, whose failures are swallowed.
- ChatClient.ChatState.SendMessage: the optional WebSocket echo of the sent message and `simulateAutoReply` are not modelled, and neither are preview timestamps. A throw from inside the preview update or later is not modelled; `thrown` stands for one before it.
- ChatClient.MockHistory: the demo messages' numeric ids are the strings "1" to "5", and their time stamps are left out.
- Journey.Journey.Next: the completion screen that `completeJourney` puts in place of the journey's markup is the `completions` counter; the markers, contents and buttons of the model keep their last state.
- ChatClient.Connection.OnClose: the `onclose` of a socket already replaced by `reconnect` or `disconnect` is not modelled, and neither are the `unknown` ready state of `getStatus` and the `onerror` status.
- Requests.RequestStore: the code does not keep "at most one request in progress per donation". `criar` can revive a request afterwards, and `cancelar` and `atualizarStatus` overwrite any status. The model follows the code and proves a two-in-progress scenario (`Requests.TwoRequestsInProgress`) instead of that invariant.
- Listing, lookup and removal endpoints that only forward a repository call (`listar`, `obter`, `remover`, `proximas`, `minhas`).

Other behaviours of the code are modelled as written and shown by a lemma:
- food-image pruning is a bare prefix match, so pruning for `food_1` removes `food_12.png` (`Uploads.PruneReachesOtherDonation`);
- the notification badge's pending test never matches a status the server sends (`Badge.NoWireStatusIsPending`);
- the two copies of `solicitacoes.js` disagree on a request with no status (`RequestsPage.CopiesDifferOnMissingStatus`);
- a chat message whose request fails shows as a local copy marked sent, never as an error (`ChatClient.FailedRequestReadsSent`);
- a lower-case `bearer` header falls back to the session attribute (`SessionAuth.LowercaseBearerFallsBackToSession`).

## Findings

| source | as written | input that shows it | evidently intended | confidence | as-written member | corrected member |
|---|---|---|---|---|---|---|
| src/main/resources/static/Como_Doar.js:648-659 | The tick that finishes a title sets `isPaused` and reschedules `type`. The next call sees `isPaused` and returns without rescheduling, and the 2000 ms pause callback only clears the flags. | The first title "Como Doar no Prato Justo" typed in full: after the pause no call of `type` is pending, so the title never starts deleting. | The pause callback schedules `type` again, so the title is deleted and the next one typed. | not executed | Journey.FirstTitleStalls | Journey.FirstTitleResumes |
