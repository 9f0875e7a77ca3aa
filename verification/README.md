# 4-in-a-row, verified

A client for four in a row, a lobby server, and an encrypted connection between them, modelled in Dafny and proved.

- `Board`, `Connect4`, `BoardTheorems`, `Renaming`, `Columns`: the board with its local win check and its flag for a full
  board, and where tokens land.
- `MultiPlayer`, `Sessions`, `TwoPeers`, `PeerColumns`: the game loop of one side, what a session of it comes to, and two
  of them over a pair of FIFO links.
- `Bytes`, `BufferIO`, `Messages`, `MessageIO`, `MessageTheorems`, `Layout`: the seventeen messages. `Encode` and `Decode`
  say what the bytes are, `Layout` says it by position; the writers and readers work on buffers with a running index.
- `SocketWrapper`, `Framing`: length-prefixed frames, the blocking reader and the incremental one.
- `Crypto`, `SecureChannel`, `Handshake`, `SecureSocketWrapper`, `Channel`, `EndToEnd`: records, keys, the signed
  transcript, the object that holds them, the channel as a pair of queues, and everything from messages to bytes and back.
  The per-record nonce follows the idea of section 5.3 of RFC 8446, but xors the sequence number into the first eight
  bytes in the byte order of the host. Both byte orders are modelled.
- `Authentication`, `OpenLink`: when exactly a side takes its peer for authenticated, and what exactly it hands out when
  anybody may put messages into the links.
- `Directory`, `Listing`, `UserList`: the users, their two indexes and reference counts, and the list of available users.
- `Handlers`, `Server`, `Lobby`, `LobbyRuns`, `Answers`, `GameRuns`: what one message does, as functions; the handlers on user
  objects; whole runs of messages one after the other; and tables of states and messages for every outcome.
- `ServerMachine`, `ServerInvariants`, `ServerRuns`, `ServerTheorems`, `ServerDeadlock`, `Undisturbed`: the main loop and
  any number of workers interleaved at every mutex and every shared read and write, and how this relates to one message at
  a time.
- `MessageQueue`: the bounded queue and its condition variable.

Objects that the program updates are classes; their methods are proved against functions on values, and the theorems are
about those functions. Where the outside world decides (how many bytes a read gives, whether a send succeeds, which nonce
is drawn, which thread steps), the value is a parameter or a nondeterministic choice. The cryptographic library is a record
of functions of which only laws are known: decryption undoes encryption under equal key, vector and additional data,
Diffie-Hellman commutes, an honest signature verifies, decoding a certificate or key undoes encoding it.

Seven things in the code differ from what one might expect, and are proved as they are, each with its exact condition and
an input or a run that shows it:

- `listAvailableFromTo` gives the page asked for only at offset 0 or past the end (`Listing.PagingExactly`,
  `Listing.SecondPageIsEmpty`).
- After a parser throws, `readPartMsg` does not reset its index, so the connection cannot be read any more. A key or
  certificate that does not decode throws, and so does a client hello or game start that is too short to have one
  (`MessageTheorems.ThrowsExactly`, `Framing.ReadableExactly`, `Framing.UnreadableStream`).
- A user is found by name after registering exactly when its name is not empty and the list is not full
  (`Lobby.RegisteredIsFound`, `LobbyRuns.NamelessRun`). It stays found until it goes away itself or any other user of its
  name does (`Lobby.EntryLostExactly`, and between the steps of different threads `ServerTheorems.EntryLostExactly`). There
  is such another user after a refused registration (`Lobby.RefusedNameIsLost`, `LobbyRuns.NamesakeRun`), after one that
  found the list full (`LobbyRuns.FullListRun`), and after two at once.
- Challenged users are paired off as long as nobody goes away while challenged, no accepted challenge reaches only one of
  the two, and every name that is set can be indexed (`Lobby.MatchingKeptExactly`, `Lobby.MatchingThroughoutExactly`,
  `LobbyRuns.UnpairedRun`).
- A user that plays stays playing until it ends the game or goes away, unless a challenged user whose opponent it is
  rejects (`Answers.PlayingExactly`, `GameRuns.RejectedInGame`); that cannot happen while challenged users are paired off
  (`Answers.PlayingUntilOwnEnd`).
- When `handleMsg` gives no message, `handleMessage` returns with the user's mutex locked. Threads then wait for ever
  (`ServerDeadlock.DroppedMessageRun`, `ServerDeadlock.HopelessForever`); this is the only deadlock there is
  (`ServerDeadlock.DeadlockExactly`, `ServerDeadlock.NoDeadlock`).
- Two peers of different byte order do not sign the same transcript unless both nonces read the same both ways
  (`Handshake.TranscriptsAgreeExactly`, `Handshake.TranscriptsDiffer`).

## Model

| member | source | states |
|---|---|---|
| Board.RunsMakeLine | src/client/connect4.cpp:66-81 | Two maximal runs, counted one each way from a cell, add up to three or more exactly when a line of four goes through the cell. |
| Connect4.Connect4.constructor | src/client/connect4.cpp:19-29 | A new board is empty, not full, and belongs to nobody yet. |
| Connect4.Connect4.Play | src/client/connect4.cpp:31-64 | The object afterwards and the code are the move of the specification: the token falls to the lowest free cell; 1 for a win, -2 for a full board before or after, -1 for a full column, 0 otherwise; with no mark given, the own one is used. |
| Connect4.Connect4.CountNexts | src/client/connect4.cpp:66-81 | Counts a maximal run: that many cells in the direction hold the mark and the next one does not or is outside. |
| Connect4.Connect4.CheckWin | src/client/connect4.cpp:83-117 | The nested loops, with their jump from (0, 0) to (-1, 1), say yes exactly when one of the four directions has a line of four through the cell. |
| Connect4.Connect4.CheckFullTopRow | src/client/connect4.cpp:119-126 | True exactly when no cell of the top row is free. |
| Connect4.Connect4.SetPlayer | src/client/connect4.cpp:132-140 | Either letter in either case is accepted and fixes both marks; anything else changes nothing. |
| BoardTheorems.OtherMarkKeepsFours | src/client/connect4.cpp:31-64 | A token of one player on a free cell neither makes nor breaks a four of the other player. |
| BoardTheorems.LocalIsGlobal | src/client/connect4.cpp:45-47 | On a board of any size without a four of the player, the check through the new token says yes exactly when there is a four of that player anywhere. |
| BoardTheorems.PlayDetectsWin | src/client/connect4.cpp:31-64 | play returns 1 exactly when the new board has a four of that player in some row, column or diagonal. |
| BoardTheorems.RunKeepsGravity | src/client/connect4.cpp:31-64 | In every reachable board each column is a contiguous stack from the bottom. |
| BoardTheorems.TopRowStandsForBoard | src/client/connect4.cpp:119-126 | On such a board the top row is full exactly when the board is. |
| BoardTheorems.ColumnFullExactly | src/client/connect4.cpp:42-63 | On such a board a column takes no further token exactly when its top cell is taken. |
| BoardTheorems.AcceptedMovesAreTokens | src/client/connect4.cpp:31-64 | The number of accepted moves is the number of tokens, so at most rows times columns. |
| BoardTheorems.FullExactly | src/client/connect4.cpp:37-54 | In every run, with or without wins, the flag is set exactly when the board is full and its last token did not win. |
| BoardTheorems.FullWithoutWin | src/client/connect4.cpp:37-54 | As long as nobody has won, the flag stands for a full board. |
| BoardTheorems.WinInLastCell | src/client/connect4.cpp:46-47 | A concrete run after which the board is full and the flag is not set: the last cell won. |
| BoardTheorems.WinsAreFours | src/client/connect4.cpp:31-64 | In every run, some call has returned 1 exactly when the board has four in a row of some player. |
| BoardTheorems.MoveCodeExactly | src/client/connect4.cpp:31-64 | The code of a move follows from the boards before and after it: a four, a full board, a taken top cell, in this order. |
| BoardTheorems.CodesExactly | src/client/connect4.cpp:31-64 | The same for every call of a run up to and including the first win. |
| Columns.TokenDrops | src/client/connect4.cpp:31-64 | Cell by cell, for every board and column: a call with the flag set, and one for a column without a free cell, gives its code and changes no cell; every other call changes exactly one, in the column asked for, which was free with only taken cells under it and now holds the mark. |
| Columns.ColumnsAreTurns | src/client/connect4.cpp:31-64 | In every run, with or without wins and refused calls: each column, read from the bottom, is the list of the marks of the accepted turns with that column, in order, with free cells above. |
| Renaming.MoveCommutes | src/client/connect4.cpp:31-64 | Renaming marks by any injective renaming commutes with play, and the code is the same. |
| Renaming.FourKept | src/client/connect4.cpp:66-117 | Renaming keeps every four. |
| MultiPlayer.AskMark | src/client/multi_player.cpp:22-35 | The mark prompt: afterwards the session goes on as specified, with both marks set, or has ended with the input. |
| MultiPlayer.AskColumn | src/client/multi_player.cpp:44-55 | The column prompt: asks again until a digit 1 to 7 arrives or the input ends. |
| MultiPlayer.OwnTurn | src/client/multi_player.cpp:43-80 | One own turn: plays, sends a MOVE exactly when the column was not full, and goes on, repeats, or ends as specified. |
| MultiPlayer.TheirMove | src/client/multi_player.cpp:81-104 | One received move: plays it with the other mark and goes on or ends as specified. |
| MultiPlayer.PlayWithPlayer | src/client/multi_player.cpp:15-107 | The whole loop: the moves sent, the returned code and the announced verdict are those of the session specified for this input and these received moves. |
| TwoPeers.RunInv | src/client/multi_player.cpp:42-106 | Every state of every run of two sides over FIFO links: each side has played a prefix of one common list of legal moves, and the other has at most one more. |
| TwoPeers.BoardsAgree | src/client/multi_player.cpp:42-106 | Whatever marks the sides chose, their boards are equal up to swapping the marks, but for the at most one move under way; receiving it makes them equal. |
| TwoPeers.OneMover | src/client/multi_player.cpp:42-106 | At most one side can move, and only with nothing under way. |
| TwoPeers.ReceivedMoveIsPlaced | src/client/multi_player.cpp:81-104 | A received move is on the board, never hits a full column, and never comes after the end of the game. |
| TwoPeers.VerdictsMatch | src/client/multi_player.cpp:69-101 | A verdict announced is true of the board, and two verdicts are won and lost or both draw. |
| TwoPeers.NeverStuck | src/client/multi_player.cpp:42-106 | As long as no side has failed, the game is over on both sides, or a prompt is open, or a move can be received. |
| TwoPeers.GameIsBounded | src/client/multi_player.cpp:42-106 | A game has at most 42 moves. |
| PeerColumns.DigitsAreColumns | src/client/multi_player.cpp:44-57 | Which digit stands for which column, from 1 for the left one to 7, and that no other character is a column. |
| PeerColumns.LettersAreMarks | src/client/multi_player.cpp:22-35 | Which letter gives which own mark, that the adversary has the other one, and that anything else leaves the prompt open. |
| PeerColumns.TypedColumnIsSent | src/client/multi_player.cpp:44-67 | A digit typed at the prompt sends that column and nothing else, and nothing at all if the column is full. |
| PeerColumns.BoardsAreMoves | src/client/multi_player.cpp:42-106 | In every state of every run of two sides, whatever marks they chose: each column of either board holds, from the bottom and in order, the marks of the moves in that column that the side has seen. |
| Sessions.SessionIsGame | src/client/multi_player.cpp:15-107 | Every session, whatever is typed and received and whichever sends fail, is a list of alternating turns that leads to the final board: the own ones are the columns sent, typed in that order, with perhaps a last one that could not be sent, the other ones are the columns received first, only the last one can have ended the game, and the verdict is what its code and player say. |
| Bytes.Be16RoundTrip | src/utils/buffer_io.cpp:52-66 | The two bytes of a 16-bit value in network order give it back. |
| Bytes.Be32RoundTrip | src/utils/buffer_io.cpp:36-50 | The four bytes of a 32-bit value in network order give it back. |
| BufferIO.WriteBuf | src/utils/buffer_io.cpp:92-98 | Copies the bytes to the place and nowhere else, or changes nothing and returns -1 when they do not fit. |
| BufferIO.WriteUInt8 | src/utils/buffer_io.cpp:76-82 | One byte, likewise. |
| BufferIO.WriteBool | src/utils/buffer_io.cpp:28-34 | One byte, 1 or 0, likewise. |
| BufferIO.WriteUInt16 | src/utils/buffer_io.cpp:60-66 | Two bytes in network order, likewise. |
| BufferIO.WriteUInt32 | src/utils/buffer_io.cpp:44-50 | Four bytes in network order, likewise. |
| BufferIO.BytesBack | src/utils/buffer_io.cpp:84-98 | A block written anywhere in a message is read back there. |
| BufferIO.UInt16Back | src/utils/buffer_io.cpp:52-66 | A 16-bit value written anywhere in a message is read back there. |
| BufferIO.UInt32Back | src/utils/buffer_io.cpp:36-50 | A 32-bit value written anywhere in a message is read back there. |
| BufferIO.WriteUsername | include/network/messages.h:59-67 | Writes 17 bytes: the name up to its first NUL, cut at 16 bytes, filled with NULs; or nothing when there is no room. |
| BufferIO.NameBack | include/network/messages.h:44-67 | A username field written anywhere in a message is read back as the name cut at its first NUL and at 16 bytes, also as the last field of the message. |
| Layout.NumberBytes | src/utils/buffer_io.cpp:36-66 | The bytes of 16-bit and 32-bit numbers by arithmetic, the highest one first. |
| Layout.NameIsFront | include/network/messages.h:44-49 | What is kept of a name: the bytes before its first NUL, 16 at most and no fewer than that. |
| Layout.NameByte | include/network/messages.h:59-67 | Each of the 17 bytes of a name field: a byte of the name, or NUL from its end on. |
| MessageIO.Write | src/network/messages.cpp:92-639 | Every writer, with its running index, leaves exactly the encoding of the message at its place in the buffer and returns its length, or returns 0 exactly when the encoding is longer than the maximum message. |
| MessageIO.WriteUsersList | src/network/messages.cpp:199-217 | The list writer, with its padding to whole name slots and one NUL, does so. |
| MessageIO.WriteSecure | src/network/messages.cpp:388-405 | The writer of encrypted messages does so. |
| MessageIO.WriteClientHello | src/network/messages.cpp:430-455 | The writer of the client hello does so. |
| MessageIO.WriteServerHello | src/network/messages.cpp:486-519 | The writer of the server hello does so. |
| MessageIO.WriteGameStart | src/network/messages.cpp:346-367 | The writer of the game start does so, address and port as inet_utils writes them. |
| MessageIO.WriteChallengeResponse | src/network/messages.cpp:280-300 | The writer of the challenge response does so. |
| MessageIO.ReadMessage | src/network/messages.cpp:20-90 | Reading from a buffer, field by field, gives what the specification makes of these bytes, for every byte string: a message, none, or an exception; a name field past the end still moves the index by 17, so that a key or certificate behind it throws. |
| MessageIO.Strnlen | include/network/messages.h:44-49 | The length of a name that is read: the bytes before the first NUL or the last byte left, also past the end of the message. |
| MessageIO.GetSecure | src/network/messages.cpp:407-428 | So does the reader of encrypted messages, whose size field wraps at 16 bits for short ones. |
| MessageIO.GetUsersList | src/network/messages.cpp:219-227 | So does the list reader. |
| MessageIO.GetServerHello | src/network/messages.cpp:521-562 | So does the reader of the server hello; where its names end past the message, it takes its sizes from there, and how that ends is open. |
| Layout.ListBytes | src/network/messages.cpp:199-217 | Each byte of a list on the wire: the text before its first NUL, NULs up to the least whole number of slots of 17 bytes, at most 1024 of them, and one NUL. |
| Layout.WrittenByPosition | src/network/messages.cpp:92-639 | For each of the seventeen types the number in its first byte and every field by its position, with sizes in front of what they measure. |
| Layout.ReadByPosition | src/network/messages.cpp:20-639 | For every byte string, what is read: the type from the first byte, and each field from its position, or that the message is refused. |
| MessageTheorems.RoundTrip | src/network/messages.cpp:20-639 | For all seventeen types: reading the bytes of a message that fits gives that message, its usernames cut at a NUL and at 16 bytes and its user list padded. |
| MessageTheorems.ThrowsExactly | src/network/messages.cpp:20-90 | For every byte string: reading throws exactly when what is left for a key or certificate, perhaps nothing, is not the encoding of one, or when memory makes a reader throw that has gone past the end. |
| MessageTheorems.GameStartBack | src/network/messages.cpp:346-386 | In particular for the game start, with address, port, name and certificate. |
| MessageTheorems.ListKept | src/network/messages.cpp:199-227 | What a user list holds before its first NUL survives writing and padding. |
| MessageTheorems.NormalTwice | src/network/messages.cpp:92-639 | A message that was read back once is read back unchanged a second time exactly when it is no user list or one that takes all 1024 name slots; shorter lists grow by their padding each time. |
| SocketWrapper.SocketWrapper.ReadPartMsg | src/network/socket_wrapper.cpp:24-80 | One call: what it asks for, what it stores where, and what it returns are those of the specification for the bytes that the socket gave. |
| SocketWrapper.SocketWrapper.ReceiveAnyMsg | src/network/socket_wrapper.cpp:82-121 | One call: buffer, remaining stream and result are those of the specification for the whole stream. |
| SocketWrapper.SocketWrapper.SendMsg | src/network/socket_wrapper.cpp:150-177 | Sends the frame of the message, its length field counting itself; 0 exactly when all of it was taken over. |
| Framing.ChunkStep | src/network/socket_wrapper.cpp:28-79 | One read stays within the current frame: the buffer in front of the index is exactly what was consumed of the frame, and a completed frame is parsed from exactly its own bytes, after which the index is 0 or, if the parser threw, still at the end. |
| Framing.ChunkingIndependence | src/network/socket_wrapper.cpp:24-80 | For any stream of frames with length field 3 to 8192 and any cut into non-empty reads, the results are those of the completed frames in order, and as long as no completed frame is one whose parser throws, told from its bytes, the reader stays in step with the stream. |
| Framing.StuckExactly | src/network/socket_wrapper.cpp:74-79 | Whether the parser of a frame throws is told from its bytes: a key or certificate that is not one, or a reader gone astray that memory makes throw. |
| Framing.ReadableExactly | src/network/socket_wrapper.cpp:74-79 | The incremental reader can be taken through a whole stream exactly when before the last frame no key or certificate fails to decode and memory makes no reader throw that has gone astray: after an exception the index is not reset and the next read asks for no bytes. |
| Framing.ReadableWhatever | src/network/socket_wrapper.cpp:74-79 | From the bytes alone: whatever memory holds, the stream can be read exactly when before its last frame no key or certificate fails to decode and no reader goes astray. |
| Framing.UnreadableStream | src/network/socket_wrapper.cpp:74-79 | A stream that no cut takes to its end: a client hello that stops after its nonce, and one more frame. |
| Framing.BlockingReadsFrames | src/network/socket_wrapper.cpp:82-121 | The blocking reader takes a stream of frames apart one by one and leaves what follows. |
| Framing.ReadersAgree | src/network/socket_wrapper.cpp:24-121 | Both readers end with the same results in the same order and the same buffer, if no frame is one whose parser throws. |
| Framing.SentMessagesArrive | src/network/socket_wrapper.cpp:24-177 | Messages sent one after the other come out in order, normalised, however the stream is cut. |
| Crypto.UpdateIV | src/security/secure_socket_wrapper.cpp:471-480 | Fills the vector: the first eight bytes are the static ones xor the sequence number as this host stores it, the last four the static ones. |
| Crypto.XorTwice | src/security/secure_socket_wrapper.cpp:475 | Xor on bytes undoes itself. |
| Crypto.RecordIvInjective | src/security/secure_socket_wrapper.cpp:471-484 | For a fixed static part the vector determines the 64-bit sequence number. |
| Crypto.ByteOrderMatters | src/security/secure_socket_wrapper.cpp:472 | Hosts of different byte order agree on the first vector and differ on the second. |
| Crypto.LawsAreConsistent | include/security/crypto.h:1-60 | The laws assumed of the cryptographic library can hold together: there is a library without secrecy that obeys them all. |
| SecureChannel.RecordFitsFrame | include/security/secure_socket_wrapper.h:23-26 | Every record fits in a frame of the maximum size and passes both limits of its receiver, and both ends authenticate as additional data exactly the first three bytes of that frame. |
| SecureChannel.LimitIsTight | src/security/secure_socket_wrapper.cpp:114-126 | The limit on plaintexts refuses nothing that could be sent: an authenticated side accepts a message exactly when a record of its size passes the check of the frame writer. |
| SecureChannel.OpensWhatWasSealed | src/security/secure_socket_wrapper.cpp:50-112 | A record sealed under the number that the matched receiver expects is opened to the message, normalised, and moves the receiver to the next number. |
| Crypto.XorBit | src/security/secure_socket_wrapper.cpp:475 | Xor is bit by bit. |
| Crypto.IvByte | src/security/secure_socket_wrapper.cpp:471-480 | Each byte of the vector of a record: the first eight are the static ones xor the bytes of the number in the order of the host, written out by division, the last four the static ones. |
| OpenLink.SealedExactly | src/security/secure_socket_wrapper.cpp:114-168 | What becomes of a message to be sent, for every side: a record exactly if the peer is authenticated and the message has at most 8173 bytes, and then the one sealed under the sending key, the vector of the sending number, and the first three bytes of its own frame. |
| OpenLink.HandedOutExactly | src/security/secure_socket_wrapper.cpp:187-230 | For every side and every message, whoever sent it: handed out in clear are exactly a client hello while the nonce is 0 and the peer not authenticated, a server hello and a client verify while it is not, a certificate, and a request for one; anything else only if the peer is authenticated and the record opens, under the receiving key, the vector of the receiving number and the first three bytes of its frame, to bytes that read as that message. The receiving number moves in no other case, and nothing else of the side ever does. |
| OpenLink.ClearMovesAreDropped | src/security/secure_socket_wrapper.cpp:226-228 | In particular a move in clear never comes out. |
| OpenLink.OnlyOpenedComesOut | src/security/secure_socket_wrapper.cpp:50-230 | In every run after a handshake in which anybody may put any messages into the links, repeat, exchange or take out: what a side hands out are the records that it opened, the k-th one under number k, and in between only certificates and requests for them. |
| OpenLink.TamperingChangesNothing | src/security/secure_socket_wrapper.cpp:50-297 | In every such run in which nothing opens that was not sealed under the same number, and with fewer than 2^64 records: what a side opens is a prefix of what the other one sent, in order, in both directions. |
| SecureSocketWrapper.SecureSocketWrapper.constructor | src/security/secure_socket_wrapper.cpp:22-35 | A new side has no nonces, keys or peer, counts from zero, and is not authenticated. |
| SecureSocketWrapper.SecureSocketWrapper.MakeAad | src/security/secure_socket_wrapper.cpp:170-173 | The additional data is the frame header that a secure message of this length has. |
| SecureSocketWrapper.SecureSocketWrapper.EncryptMsg | src/security/secure_socket_wrapper.cpp:114-168 | Gives the record of the specification or none; changes only the vector buffer. |
| SecureSocketWrapper.SecureSocketWrapper.DecryptMsg | src/security/secure_socket_wrapper.cpp:50-112 | Gives the message of the specification, none, or an exception; changes only the vector buffer. |
| SecureSocketWrapper.SecureSocketWrapper.HandleMsg | src/security/secure_socket_wrapper.cpp:187-230 | New state and outcome are those of the specification, per type of message; the receive number moves only with a decrypted message. |
| SecureSocketWrapper.SecureSocketWrapper.SendMsg | src/security/secure_socket_wrapper.cpp:282-297 | The send number moves only when the whole frame of the record was taken over; a message that is not accepted sends nothing and changes nothing. |
| SecureSocketWrapper.SecureSocketWrapper.GenerateKeys | src/security/secure_socket_wrapper.cpp:340-385 | Fills both keys and both static vectors from the shared secret, the labels of the roles and both nonces, or changes nothing where the library throws. |
| SecureSocketWrapper.SecureSocketWrapper.BuildMsgToSign | src/security/secure_socket_wrapper.cpp:387-444 | Leaves the transcript of the specification in the buffer: names of both cut at 16 bytes, nonces as the host stores them, keys, the client first; 0 where a key is missing. |
| SecureSocketWrapper.SecureSocketWrapper.CopyKey | src/security/secure_socket_wrapper.cpp:429-441 | A key that does not fit is not copied, and its error code takes a byte back. |
| SecureSocketWrapper.SecureSocketWrapper.MakeSignature | src/security/secure_socket_wrapper.cpp:446-455 | Signs the transcript. |
| SecureSocketWrapper.SecureSocketWrapper.CheckSignature | src/security/secure_socket_wrapper.cpp:457-469 | Checks a signature of the transcript against the certificate of the peer. |
| SecureSocketWrapper.SecureSocketWrapper.SetOtherCert | src/security/secure_socket_wrapper.cpp:524-532 | Takes over certificate and name of the peer if the store trusts it, and nothing otherwise. |
| SecureSocketWrapper.SecureSocketWrapper.SendClientHello | src/security/secure_socket_wrapper.cpp:304-310 | State, message sent and result are those of the specification. |
| SecureSocketWrapper.SecureSocketWrapper.HandleClientHello | src/security/secure_socket_wrapper.cpp:232-237 | So for the server answering a client hello. |
| SecureSocketWrapper.SecureSocketWrapper.SendServerHello | src/security/secure_socket_wrapper.cpp:312-327 | So for the server hello, also where keys or signature fail. |
| SecureSocketWrapper.SecureSocketWrapper.HandleServerHello | src/security/secure_socket_wrapper.cpp:239-256 | So for the client, which is authenticated before it sends its own signature. |
| SecureSocketWrapper.SecureSocketWrapper.SendClientVerify | src/security/secure_socket_wrapper.cpp:329-338 | So for the signature of the client. |
| SecureSocketWrapper.SecureSocketWrapper.HandleClientVerify | src/security/secure_socket_wrapper.cpp:258-271 | So for the server checking it. |
| Channel.SendAppends | src/security/secure_socket_wrapper.cpp:282-297 | From every reachable state of two matched sides, sending appends the message to the abstract queue exactly when it is accepted and the socket takes it. |
| Channel.ReceivePops | src/security/secure_socket_wrapper.cpp:187-198 | Handling the next record takes the head of the queue and hands exactly it out. |
| Channel.ChannelIsFifo | src/security/secure_socket_wrapper.cpp:50-297 | In every run, in both directions: what was handed out is a prefix of what was accepted, in order, and the rest is in flight. |
| Channel.AllArrive | src/security/secure_socket_wrapper.cpp:187-198 | Handling everything in flight hands out everything accepted. |
| Channel.IvFreshness | src/security/secure_socket_wrapper.cpp:282-297 | In every run two records of one direction share their vector exactly when their numbers differ by a multiple of 2^64. |
| Handshake.KeysAgree | src/security/secure_socket_wrapper.cpp:340-385 | What one side derives for sending, the other derives for receiving, keys and static vectors alike. |
| Handshake.TranscriptsAgreeExactly | src/security/secure_socket_wrapper.cpp:387-444 | Sides with crossed identities and keys sign and check the same bytes exactly when their hosts store both nonces alike. |
| Handshake.TranscriptsDiffer | src/security/secure_socket_wrapper.cpp:387-444 | A little-endian client that draws nonce 1 and a big-endian server never sign the same bytes. |
| Handshake.HandshakeAgreement | src/security/secure_socket_wrapper.cpp:487-522 | Honest peers complete the handshake whatever nonces and keys they draw: every message fits, passes handleMsg and is accepted, both signatures verify, and both directions are matched from number zero. |
| Authentication.CutNameBytes | src/security/secure_socket_wrapper.cpp:399-414 | Each byte of a name in the transcript: at most 16, and NULs from its first NUL on. |
| Authentication.TranscriptDetermines | src/security/secure_socket_wrapper.cpp:387-444 | The transcript, written out as both names, both nonces and both keys with the client first, determines both nonces and both keys, for names and keys of known sizes. |
| Authentication.SignatureExactly | src/security/secure_socket_wrapper.cpp:446-455 | What a side signs is that transcript, with its own key, if it has both keys. |
| Authentication.ClientVerifyExactly | src/security/secure_socket_wrapper.cpp:258-271 | For every state and every signature: a client verify authenticates the peer, and succeeds, exactly when the signature verifies over that transcript under the key of the certificate of the peer; otherwise it fails and nothing changes. |
| Authentication.ServerHelloExactly | src/security/secure_socket_wrapper.cpp:239-256 | For every state and every server hello, the same with the nonce and the key that it brings, where the shared secret can be had. |
| Authentication.AuthenticatedHasProof | src/security/secure_socket_wrapper.cpp:232-271 | Whatever functions are called with whatever arguments, in any order: a side that becomes authenticated has at that moment been given a signature that verified over its own transcript under the certificate of its peer. |
| Authentication.PeerIsTrusted | src/security/secure_socket_wrapper.cpp:524-532 | In any such sequence the certificate that signatures are checked against is one that the store trusts, and the name in the transcript is the name in it. |
| Authentication.HandshakeMessages | src/security/secure_socket_wrapper.cpp:304-338 | Who sends which nonce, names, key and signature, and what is kept of them. |
| Authentication.KeysSpelledOut | src/security/secure_socket_wrapper.cpp:340-385 | The four derived values of a side, letter by letter: the secret of its own key with that of the peer, a label of direction and purpose, and both nonces, the one of the server first. |
| Authentication.LabelsDiffer | src/security/secure_socket_wrapper.cpp:340-385 | The two directions, and keys and vectors, are derived from different strings, whatever the nonces. |
| EndToEnd.MessagesArrive | src/security/secure_socket_wrapper.cpp:50-297 | From messages to bytes and back: whatever the cut of the stream, the receiver gets exactly the accepted messages, normalised, in order. |
| EndToEnd.PeersTalk | src/security/secure_socket_wrapper.cpp:487-522 | The same both ways after the handshake of any two honest peers. |
| Directory.AddKeeps | src/server/user_list.cpp:26-42 | Adding keeps the indexes in agreement with the users; a user that is added is found by its descriptor. |
| Directory.GetKeeps | src/server/user_list.cpp:44-70 | Looking up keeps the indexes in agreement. |
| Directory.YieldKeeps | src/server/user_list.cpp:88-108 | Giving back keeps the indexes in agreement, and deletes the user exactly when it is disconnected and this was the last handle. |
| Directory.YieldLosesExactly | src/server/user_list.cpp:88-108 | Giving back a handle makes a user that stays lose its entry exactly when the user given back is deleted under the same name without being the one that the entry leads to; entries are never redirected. |
| Directory.GetThenYield | src/server/user_list.cpp:44-108 | Taking a handle and giving it back changes nothing, unless it was the last one of a disconnected user. |
| Directory.NameLessExactly | src/server/user_list.cpp:20 | The order of the map of names: that of the first byte that differs, a proper prefix first. |
| UserList.UserList.Add | src/server/user_list.cpp:26-42 | On user objects and both maps: the size limit, no entry overwritten, no entry for an empty name. |
| UserList.UserList.GetByName | src/server/user_list.cpp:44-56 | Gives the user under the name and counts the handle, or gives none and changes nothing. |
| UserList.UserList.GetByFd | src/server/user_list.cpp:58-70 | Likewise by descriptor. |
| UserList.UserList.ExistsName | src/server/user_list.cpp:72-78 | True exactly when the name has an entry. |
| UserList.UserList.ExistsFd | src/server/user_list.cpp:80-86 | True exactly when the descriptor has an entry. |
| UserList.UserList.Yield | src/server/user_list.cpp:88-108 | Gives back a handle; the last one of a disconnected user erases the entries under its name and its descriptor and deletes it. |
| UserList.UserList.ListAvailableFromTo | src/server/user_list.cpp:110-135 | The loop over the map writes, for every offset, what the specification says: nothing but a NUL from offset 1 on, and below 0 a shorter list. |
| Listing.SortedUnique | src/server/user_list.cpp:20 | There is only one enumeration of a set of names in the order of the map. |
| Listing.OfferedExactly | src/server/user_list.cpp:115-130 | Offered are exactly the names under which an available user is found, each once, smaller names first. |
| Listing.ListedPieces | src/server/user_list.cpp:110-135 | What a reader sees that cuts the text at its commas: at an offset from -9 to 0 the first names, as many as the offset plus ten, with an empty piece behind them if there are fewer; at any other offset the text is empty. |
| Listing.PagingExactly | src/server/user_list.cpp:115-130 | The list is the page that was asked for, ten names from the offset on, exactly at offset 0 and at offsets past the last name. |
| Listing.SecondPageIsEmpty | src/server/user_list.cpp:115-130 | Two users and offset 1: the second name was asked for, and the list is empty. |
| Listing.ListArrives | src/server/user_list.cpp:110-135 | Whatever the offset, the list fits its message, and what the receiver reads up to the first NUL is the list. |
| MessageQueue.MessageQueue.Push | include/utils/message_queue.h:95-102 | Appends if there is room, and says whether. |
| MessageQueue.MessageQueue.PushSignal | include/utils/message_queue.h:127-138 | Likewise, and signals exactly for the first item of an empty queue. |
| MessageQueue.MessageQueue.Pull | include/utils/message_queue.h:105-112 | Takes the first item. |
| MessageQueue.MessageQueue.PullWait | include/utils/message_queue.h:115-125 | Waits as long as the queue is found empty, and then leaves with its first item and the rest behind. |
| MessageQueue.NoStrandedWork | include/utils/message_queue.h:115-138 | In every run with at least one worker and any spurious wakeups, the queue is never non-empty with every worker waiting; items leave in the order they were accepted, none is lost, and the bound holds. |
| MessageQueue.LookTakes | include/utils/message_queue.h:115-125 | A worker that takes the mutex and finds items leaves with the first one; one that finds none waits and changes nothing else. |
| MessageQueue.OthersTakeNothing | include/utils/message_queue.h:95-138 | No other turn takes an item. |
| MessageQueue.GotExactly | include/utils/message_queue.h:115-125 | In every run: what a worker got are the items that stood first whenever it looked, one for each look at a queue with items, and what was pulled are those of all workers in order. |
| MessageQueue.EachItemOnce | include/utils/message_queue.h:95-138 | In every run every item that was accepted was got once by one worker, or is still in the queue. |
| MessageQueue.QueueCanBeEmptied | include/utils/message_queue.h:115-125 | From every state of every run the workers can empty the queue without a push, with as many looks as there are items and at most one call of pullWait before each. |
| MessageQueue.OneTurnEachExactly | include/utils/message_queue.h:115-125 | As many turns as there are items are enough exactly when as many workers are already about to look. |
| MessageQueue.NobodyReady | include/utils/message_queue.h:115-125 | A run after which there is one item and nobody about to look. |
| MessageQueue.NothingRefusedExactly | include/utils/message_queue.h:127-138 | In every run, all items that were pushed are accepted, in their order, exactly when no push meets a full queue. |
| MessageQueue.RoomIsEnough | include/utils/message_queue.h:127-138 | As many items as the queue has room for are never refused, whatever the workers do. |
| MessageQueue.SomeMayWait | include/utils/message_queue.h:131-133 | A concrete run in which one worker goes on waiting beside two items, because only the first was signalled. |
| Server.Server.HandleRegister | src/server/server.cpp:77-98 | On the objects: the name is refused if it is the one in the server's own certificate; otherwise it is set, and the user is available and indexed, or disconnected if the name is taken. |
| Server.Server.ChallengeLocked | src/server/server.cpp:111-142 | What a challenge does with both users locked, in every combination of their states and of the outcomes of the sends. |
| Server.Server.HandleChallenge | src/server/server.cpp:100-148 | The whole challenge: lookup, absent or own name, both users, handle given back. |
| Server.Server.HandleGameEnd | src/server/server.cpp:150-153 | The sender is available again; nothing else changes. |
| Server.Server.HandleUsersListRequest | src/server/server.cpp:155-158 | Sends the list for the offset, which is taken as signed. |
| Server.Server.StartGame | src/server/server.cpp:193-246 | Both game starts with address, port and certificate of the other, and what happens where one or both sends fail. |
| Server.Server.RespondLocked | src/server/server.cpp:170-255 | What an answer does with both users locked, on each branch, with the result that is not assigned where the code assigns none. |
| Server.Server.HandleChallengeResponse | src/server/server.cpp:160-261 | The whole answer: lookup of the opponent, absent or itself, both users, handle given back. |
| Server.Server.Welcome | src/server/server.cpp:318-335 | Hello, verify and certificate request of a user that has just connected. |
| Server.Server.HandleMessage | src/server/server.cpp:302-393 | The state of the sender selects the handler; users, messages sent and result are those of the specification. |
| Server.Server.Work | src/server/server.cpp:395-406 | One round of a worker: finds the user, handles the message, disconnects it if the result is false, gives it back. |
| Lobby.NextSound | src/server/server.cpp:302-406 | Every round, with faults or without, keeps the indexes in agreement with the users and leads from no name to a user that has not registered. |
| Handlers.HandleHolds | src/server/server.cpp:302-406 | Handling a message never deletes its sender and never takes the worker's handle on it. |
| Lobby.MatchingKeptExactly | src/server/server.cpp:77-261 | For every round and every outcome of its sends: everybody registered is found by name and the challenged users are paired off afterwards exactly when nobody leaves a challenge alone, no accepted challenge ends for one of the two only, and no registration sets a name that is taken, empty or finds no room. |
| Lobby.MatchingThroughoutExactly | src/server/server.cpp:77-261 | Over whole runs with any faults: the matching holds all the time exactly when every round is one of those. |
| Lobby.ChallengesMatch | src/server/server.cpp:100-261 | In every such run the challenged users are paired off through their opponents' names: nobody with itself, symmetrically, and nobody twice. |
| LobbyRuns.UnpairedRun | src/server/server.cpp:395-406 | A run from the empty server in which a challenged user is lost and the other one goes on being challenged by nobody. |
| Lobby.GamesStartInPairs | src/server/server.cpp:193-215 | Whatever sends succeed, a round sends a game start exactly when a challenged user accepts and both certificates are known, and then exactly two, one to each of the pair, naming each other. |
| Answers.AnswerExactly | src/server/server.cpp:160-261 | One whole round with an answer, for every directory and every outcome of its sends: the states of both users afterwards, each message with its receiver, name, address, port and certificate, and that nobody else is touched. Accepted with both starts taken, both are playing; rejected, both are available. |
| Answers.ChallengeExactly | src/server/server.cpp:100-148 | Likewise for a challenge: who is told what about whom, and that both are challenged by each other exactly when the other one was available and the challenge was taken. |
| Answers.OthersExactly | src/server/server.cpp:77-158 | Likewise for every other round: registration, end of game, list, handshake, and messages that do not fit the state of their sender. |
| Answers.LostExactly | src/server/server.cpp:302-406 | A broken connection disconnects its user and touches nobody else. |
| Answers.PlayingExactly | src/server/server.cpp:302-406 | Over one round of any kind: a user is playing afterwards exactly if two game starts, one of them to it, were both taken, or it was playing and neither ended its game, nor went away, nor was rejected by a challenged user whose opponent it is. |
| Answers.PlayingFromStartToEnd | src/server/server.cpp:302-406 | In every run from the empty server, with any faults: a user is playing exactly from a round in which both game starts, one of them to it, were taken, until such an end of its game. |
| Answers.PlayingUntilOwnEnd | src/server/server.cpp:302-406 | In every such run in which every round keeps challenged users paired off: exactly until its own end of game or its disconnection. |
| GameRuns.RejectedInGame | src/server/server.cpp:247-255 | A run from the empty server in which a user is made available in the middle of its game, by the rejection of an old challenge. |
| Lobby.RegisteredIsFound | src/server/server.cpp:85-91 | A user that registers under a free name is found by it exactly when the name is not empty and the list is not full. |
| LobbyRuns.NamelessRun | src/server/server.cpp:85-91 | A run from the empty server after which a user is available under the empty name and nobody can find it. |
| Lobby.EntryLostExactly | src/server/server.cpp:77-98 | The rounds, with faults or without, after which a user that stays is no longer found: exactly those in which a user goes away whose name, as it is then, is the one the other is found by. No round redirects an entry. |
| Lobby.RefusedNameIsLost | src/server/server.cpp:94-96 | One way into that: whoever is refused a taken name takes the entry with it when it is deleted, and the user that had the name stays. |
| LobbyRuns.NamesakeRun | src/server/server.cpp:94-96 | A run from the empty server in which two users want one name, the second is refused, and the first is no longer found. |
| LobbyRuns.FullListRun | src/server/server.cpp:85-91 | A run in which nobody is refused: a user registers while the list is full, a namesake registers later, and when the first leaves the second is no longer found. |
| ServerInvariants.PerformLocks | src/server/server.cpp:55-75 | Mutual exclusion: the owner of each mutex is exactly the thread that is at a point where it holds it. |
| ServerInvariants.PerformRefs | src/server/user_list.cpp:44-108 | Every step keeps each reference count equal to the handles of the threads and those never given back. |
| ServerInvariants.OtherStaysOk | src/server/server.cpp:55-75 | What a thread has read of names, registrations and the order of entries stays true while other threads step, also across the window in which it has released its user. |
| ServerRuns.StepInv | src/server/server.cpp:302-406 | Every step of every thread keeps the whole invariant. |
| ServerTheorems.ListIsLeaf | src/server/user_list.cpp:44-108 | A thread inside a method of the list waits for nobody. |
| ServerTheorems.HeldBeforeAwaited | src/server/server.cpp:55-75 | A thread that holds a user's mutex waits only for users that come later, by name and then by entry into the index. |
| ServerTheorems.NoCycle | src/server/server.cpp:55-75 | No threads wait on each other in a circle, whatever users have been created, named or deleted. |
| ServerTheorems.EveryWaitEnds | src/server/server.cpp:55-75 | Whoever is blocked waits, perhaps through others, on a thread that can step or for a mutex that was left locked. |
| ServerTheorems.CanStepSteps | src/server/server.cpp:302-406 | A thread in the middle of its work that no mutex blocks does get on. |
| ServerDeadlock.NoDeadlock | src/server/server.cpp:55-75 | In every run, of any number of workers and users, also users of one name, in which handleMsg drops no message: while some thread is in the middle of its work some thread can step. In every run whatsoever no threads wait in a circle. |
| ServerDeadlock.DeadlockExactly | src/server/server.cpp:302-312 | In every state of every run: no thread can step exactly when every thread in the middle of its work waits, perhaps through others, for a mutex that was left locked. |
| ServerDeadlock.HopelessForever | src/server/server.cpp:302-312 | Whoever waits for such a mutex stays where it is in every continuation of the run. |
| ServerDeadlock.DroppedMessageRun | src/server/server.cpp:302-312 | A run of two workers in which a dropped message leaves a user locked and disconnected, and the worker that has fetched the same user waits for ever. |
| ServerTheorems.Lifetime | src/server/user_list.cpp:44-108 | In every run no thread has a handle on, owns the mutex of, or waits for a deleted user, and every handle is counted. |
| ServerTheorems.DeletedOnce | src/server/user_list.cpp:88-108 | A user is deleted only with its last handle and while disconnected, no thread then has a handle on it, and it never comes back. |
| ServerTheorems.EntryLostExactly | src/server/user_list.cpp:88-108 | In every state of every run, the steps after which a user that stays is no longer found: exactly those that give back the last handle on a disconnected user of the same name that is not the one found by it. No step redirects an entry. |
| ServerTheorems.TakerIsEarlier | src/server/server.cpp:85-91 | Whoever takes another's entry along was never entered itself, or before the other one. |
| ServerTheorems.StatesInOrder | src/server/server.cpp:317-383 | In every run the indexes agree; available, challenged and playing users, and users found by name, have registered after their handshake; a disconnected user that is still listed has a handle on it. |
| ServerTheorems.HistoryInOrder | src/server/server.cpp:278-288 | A user is marked registered only by its registration, and only after its handshake; neither is ever undone. |
| Undisturbed.Together | src/server/server.cpp:55-148 | With nobody in between, both orders of locking two users, the two reads and the single writes come to the same as handling both at once. |
| Undisturbed.WorkerIsAtomic | src/server/server.cpp:302-406 | A worker that nobody disturbs takes a message that is not dropped, in many steps, to exactly the users that the atomic round leaves, and is idle again. |

## Left out

- MultiPlayer.AskColumn: the input 0, which the prompt admits, is outside the inputs considered.
- MultiPlayer.OwnTurn: the input 0, which becomes column -1 and an access outside the board, is outside the inputs considered.
- MultiPlayer.TheirMove: a received column of 7 or more, which is an access outside the board, is outside the inputs considered.
- MultiPlayer.PlayWithPlayer: the input 0 and received columns of 7 or more are outside the inputs considered.
- Printing, and the argument parser behind the prompts: a line of input is a single word, of which the first character counts, or any other line, or there is no more input.
- TwoPeers.VerdictsMatch: the verdict for a received move into a full column is not needed, since that never happens between two such sides.
- MessageIO.Write: the checks of room for fixed-size fields at the front of a message cannot fail and are not modelled one by one; what a writer that returns 0 leaves in the buffer is left open.
- MessageIO.ReadMessage: what memory holds past a message that is too short is a parameter, not the stale bytes of the buffer that the program would see there.
- MessageIO.GetServerHello: where a server hello takes its signature size from past its end, it is left open whether it gives a message, none, or an exception; that the program may also crash there is not modelled.
- SocketWrapper.SocketWrapper.ReceiveAnyMsg: length fields 0 and 1, for which the program asks for a wrapped number of bytes, are outside its inputs.
- Framing.ChunkingIndependence: length fields below 3 are outside its streams, and after a parser has thrown it says no more about the reader's position; `ReadableExactly` does.
- SocketWrapper.SocketWrapper.SendMsg: messages longer than 8190 bytes are outside its inputs.
- Channel.ChannelIsFifo: a send that fails is taken to have put nothing on the link; part of a frame on a broken connection is not followed.
- Handshake.HandshakeAgreement: the messages are honest; what a side does with any other message is in `Authentication`.
- OpenLink.TamperingChangesNothing: no cryptographic strength is assumed; that nothing opens which was not sealed is a condition on the run.
- Authentication.AuthenticatedHasProof: that a signature which verifies was made by the peer is not claimed.
- SecureSocketWrapper.SecureSocketWrapper.CheckSignature: with no certificate of the peer the check is taken to fail; the program passes the missing certificate to the library.
- UserList.UserList.ListAvailableFromTo: offsets near the largest integer, where adding ten overflows, are not modelled.
- Listing.PagingExactly: offsets below 0, which arrive as offsets of 2^31 and more, ask for no page.
- Lobby.ChallengesMatch: stated for whole rounds one after the other; for interleaved handlers the matching is not claimed.
- ServerDeadlock.NoDeadlock: exceptions thrown while two mutexes are held are assumed not to happen.
- ServerTheorems.Lifetime: the handle on oneself that a self-challenge takes is never given back; it is counted as leaked, so nothing is claimed about such a user being deleted in the end.
- Undisturbed.WorkerIsAtomic: stated while no mutex was left locked and for messages that are not dropped.
- ServerTheorems.StatesInOrder: a handler that is under way may still write to a user after it has been disconnected; that disconnection is final is not claimed.
- ServerMachine.Next: the main loop goes on where a lookup gives no user; the program dereferences the missing user there.
- ServerMachine.Next: in the interleaved machine the decrypted message and the outcomes of sends are chosen at the start of a round, and the messages sent are not recorded; `Server.Server.HandleMessage` states them.
- MessageQueue.NoStrandedWork: that a busy worker comes back to the queue is not claimed; one user's messages may be handled by several workers in any order.
- Server.Server.HandleMessage: the user objects have no mutex; that one stays locked where no message comes out of handleMsg is in `ServerDeadlock`. A user about to register has no entry in the index of names; that this is so in every run is `ServerTheorems.StatesInOrder`.
- receiveMsg: a message of another type ends the wait with NULL, although its documentation says that it is ignored; the loop is not modelled.
- Sockets, select, prompts, logging, hex dumps, files and certificate loading, and the main functions are not part of this model.
- Random ports, the argument parser, the offline opponent and the lobby interface would only add easy members.
