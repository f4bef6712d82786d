# Verification of the Xiangqi Online client and server

This project models the program logic of an online Xiangqi (Chinese chess) game and proves properties of it:

- **Rules engine and turn machine** (JavaScript client). `Xiangqi.dfy` states the rules on values: a placement maps
  occupied squares to men. `Pieces.dfy` and `Boards.dfy` model the mutable objects: piece objects that carry their own
  coordinates and an offset table that a clone shares, and a 10x9 grid with a cache of both generals' squares. They
  hold the ray scans, the screen counts, the copy-and-simulate self-check and the exhaustive search, each proved equal
  to the rule it computes, and `Moves.dfy` says every rule a second time by steps, paths and distances. `Games.dfy` is
  the turn machine on values and `Controllers.dfy` the controller object that refines it. `Opening.dfy`, `Safety.dfy`
  and `Symmetry.dfy` prove what every run keeps, and `Playing.dfy` what runs mean to the player.
- **Replicas of one game.** `Networks.dfy` and `NetworkControllers.dfy` model the online controller, with any number of
  requests in flight, and `Silence.dfy` proves when it sends nothing. `Logs.dfy` is the server's move log and the game it
  leads to, `Replicas.dfy` two clients and the server joined by FIFO channels, and `Agreement.dfy` whole runs of them.
  `Following.dfy` proves the exact condition under which the boards agree, `Lapses.dfy` gives runs that break it,
  `Patience.dfy` a rule of conduct that suffices, and `Pairing.dfy` joins these worlds to the server's table: how they
  begin and how they end. `Replays.dfy` is the spectator's catch-up loop and the replay page.
- **Match server** (C). `Matches.dfy` is one match record with its clocks, `Ratings.dfy` the rating arithmetic over the
  reals, and `Servers.dfy` the slot table and the handlers. `Lifecycle.dfy`, `Conservation.dfy` and `Timing.dfy` prove
  properties of whole runs, `Outcomes.dfy` what the handlers mean for the two players.
- **Framing and messages.** `Framing.dfy` models the in-place line buffers, `Streams.dfy` whole streams in any chunks,
  `Sending.dfy` the sending sides, and `Protocol.dfy` (with `Decimals.dfy` and `Sequences.dfy`) printing, escaping and
  parsing of lines.
- **Lobby.** `Lobbies.dfy` models the ready queue, rated and random matchmaking, and the room and challenge slots, and
  `LobbyRules.dfy` proves what its calls mean for each other.

Code that updates state in place is a class whose methods are proved equal to a function of the old state (`View()`);
the lemmas are about those functions. The time, the bytes each `recv` returns, what each `send` accepts and room codes
are parameters, and the user table is a map.

Some expectations turn out to hold only under a condition, which is then proved exact:

- A timed-out match is settled if and only if fewer than 100 expired slots come before it in its sweep
  (`Lifecycle.TimeoutSettledExactly`).
  101 matches that time out together are an instance (`Lifecycle.HundredAndFirstIsLost`).
- Two honest clients follow the server's log at every moment of a run, and the log stays a legal game, if and only if
  the run is careful: whenever an accepting answer is read, its request has not been given up and its piece is still
  the selected one, and every request the server accepts is legal in the game the log has reached
  (`Following.BoardsFollowExactly`; for one answer `Following.AcceptedMoveShowsExactly`, for one request
  `Following.AcceptedRequestIsLegalExactly`). Nothing in the client or the server enforces this. Selecting another
  piece, deselecting or a slow answer while a move is in flight parts the boards (`Lapses.ALapsePartsTheBoards`), and
  clicking the target twice can put an illegal move into the log (`Lapses.ARepeatedRequestBreaksTheLog`). Players who
  touch nothing until the answer arrives, within ten seconds, are careful (`Patience.PatientIsCareful`).
- The timeout test, its subtraction taken over the integers, is right if and only if the elapsed milliseconds fit an
  `int` or their low 32 bits still cover the clock as a non-negative `int` (`Matches.TimeoutTestIsExact`, with a
  counterexample in `Matches.TimeoutTestWraps`). The subtraction itself fits an `int` if and only if those low bits
  are not within one clock of 2^31 (`Matches.TimeoutTestIsDefined`). Rounds that are punctual enough rule both
  failures out (`Timing.NoOverflowInAnyRun`).
- A settlement conserves rating points, wins less losses and the parity of draws if and only if it does not reward a
  user matched with himself, which neither challenges nor rooms prevent (`Conservation.SettlementConservesExactly`,
  with a run in `Conservation.SelfMatchMints`).
- The two turn tests agree if and only if it is Red's turn or the user is one of two different players
  (`Lifecycle.TurnTestsAgree`); a third user can move for Black (`Lifecycle.ThirdUserMovesForBlack`).
- A printed line is read back if and only if type and token are quote-free and the payload's braces balance
  (`Protocol.ParseLine`), which a chat message with a brace breaks (`Protocol.ChatBraceIsMisread`); through the
  4096-byte buffer it must also be at most 4096 characters (`Protocol.ResponseRoundTrip`).
- A string value escaped by the server's `json_escape` is read back by its `json_get_string` if and only if it needed no
  escaping (`Protocol.EscapedValueRoundTrip`).
- The replay page's step is the live step if and only if origin and target differ (`Replays.ReplayStepIsLive`).
- The resignation of a rated match between two users is the sender's own loss if and only if he plays in it; a third
  user's is Black's loss (`Outcomes.ResigningIsOnesOwnExactly`). Resigning a rated match gains its sender points if
  and only if he was matched with himself (`Outcomes.ResigningPaysExactly`).
- The server is delivered exactly the messages `client_send_json` reports as sent if and only if no call succeeds after
  one that gave up half-way, which leaves the connection open (`Sending.DeliveredAsReportedExactly`).
- An accepted move is logged on its squares if and only if every coordinate fits a signed char
  (`Outcomes.SquaresAreLoggedExactly`).
- A room can be joined with the password it was opened with if and only if that has at most 63 characters
  (`LobbyRules.OpenThenJoin`).
- For the room a code stands for, a disconnect does what leaving does if and only if the user is not both its host and
  its guest (`LobbyRules.DisconnectIsLeaving`).
- An escaped text is free of raw control characters, as section 7 of RFC 8259 demands, if and only if the text had none
  but newline and carriage return and, for `json_escape`, tab (`Protocol.EscapeIsStrictExactly`).
- A timeout takes exactly the 25-point penalty out of the system, up to the floor of 100
  (`Conservation.TimeoutCosts`).

## Model

| member | source | states |
|---|---|---|
| Pieces.ChessPiece.Clone | client/src/core/board.js:109 | a clone has the same type, colour and square and shares the original's offset table |
| Pieces.ChessPiece.IsFriendly | client/src/pieces/ChessPiece.js:10-16 | true exactly when the placement shows a man of the piece's own colour on the target |
| Pieces.ChessPiece.AdvisorMove | client/src/pieces/Advisor.js:14-27 | accepts exactly one diagonal step that ends inside the own palace |
| Pieces.ChessPiece.ElephantMove | client/src/pieces/Elephant.js:14-34 | accepts exactly two diagonal steps within the own half with an empty eye, and the eye looked up is on the board |
| Pieces.ChessPiece.HorseMove | client/src/pieces/Horse.js:18-32 | accepts exactly the eight jumps whose leg is empty, and the leg looked up is on the board |
| Pieces.ChessPiece.PawnMove | client/src/pieces/Pawn.js:14-32 | accepts exactly one step ahead, or sideways once across the river |
| Pieces.ChessPiece.RowLimit | client/src/pieces/Chariot.js:52-67 | the vertical scan returns the index of the last ray square that is on the board with nothing before it |
| Pieces.ChessPiece.ColLimit | client/src/pieces/Chariot.js:69-84 | the same for the horizontal rays |
| Pieces.ChessPiece.RaysAreTheRule | client/src/pieces/Chariot.js:52-107 | squares within the four limits are exactly the other squares of the line with a clear path |
| Pieces.ChessPiece.TableLookup | client/src/pieces/Chariot.js:86-106 | an offset is in the pushed table exactly when its square is within the four limits |
| Pieces.ChessPiece.OpenOffsets | client/src/pieces/Chariot.js:86-104 | the offsets pushed lead to exactly the squares an open line reaches |
| Pieces.ChessPiece.ChariotMove | client/src/pieces/Chariot.js:86-107 | four bounded scans and a table lookup are the declarative chariot rule |
| Pieces.ChessPiece.RowObstacles | client/src/pieces/Cannon.js:14-21 | the loop counts exactly the men strictly between on the row |
| Pieces.ChessPiece.ColObstacles | client/src/pieces/Cannon.js:22-30 | the loop counts exactly the men strictly between on the column |
| Pieces.ChessPiece.CountsScreens | client/src/pieces/Cannon.js:32-38 | a count of zero is a clear path and a count of one is a single screen |
| Pieces.ChessPiece.CannonByCount | client/src/pieces/Cannon.js:8-39 | the declarative cannon rule is no screen onto an empty square and one screen onto an enemy |
| Pieces.ChessPiece.CannonMove | client/src/pieces/Cannon.js:8-39 | the counting code decides the declarative cannon rule |
| Pieces.ChessPiece.CannonAndChariot | client/src/pieces/Cannon.js:32-38 | on empty targets cannon and chariot agree; their captures are disjoint and a cannon's needs exactly one screen |
| Pieces.ChessPiece.FindColTgt | client/src/pieces/General.js:15-33 | returns the one square of a flying capture, and nothing only if there is none |
| Pieces.ChessPiece.OneFlyingTarget | client/src/pieces/General.js:15-33 | a general has at most one flying target |
| Pieces.ChessPiece.PalaceSteps | client/src/pieces/General.js:38-52 | the steps pushed are exactly those not refused at the palace edge |
| Pieces.ChessPiece.GeneralMove | client/src/pieces/General.js:35-63 | decides step or flying capture; the write to the fifth table slot keeps the table usable and affects no verdict |
| Pieces.ChessPiece.ValidateMove | client/src/pieces/ChessPiece.js:29-31 | for every kind of piece the verdict depends only on placement, man, square and target, and is the rule |
| Moves.HorsePassesItsLeg | client/src/pieces/Horse.js:18-32 | a horse reaches exactly the squares at squared distance five, not its own, that are diagonal to an empty square straight beside it |
| Moves.ElephantPassesTheEye | client/src/pieces/Elephant.js:14-34 | an elephant passes an empty diagonal neighbour and goes on just as far, within five ranks of home |
| Moves.AdvisorKeepsToThePalace | client/src/pieces/Advisor.js:14-27 | an advisor steps diagonally within one step of its palace's centre |
| Moves.PawnNeverTurnsHome | client/src/pieces/Pawn.js:14-32 | a pawn takes one straight step that does not lead nearer home, sideways only from the sixth rank on |
| Moves.GeneralStepsOrFlies | client/src/pieces/General.js:15-63 | with every man on its points, a general takes a straight step within its palace, or the other general along an open column |
| Moves.ChariotRuns | client/src/pieces/Chariot.js:52-107 | a chariot runs n steps in one direction, the first n - 1 over empty squares |
| Moves.CannonRunsOrJumps | client/src/pieces/Cannon.js:8-39 | a cannon runs likewise onto an empty square, and takes by jumping exactly one man |
| Boards.Board.CopyBoard | client/src/core/board.js:152-158 | a new grid that holds the very same piece objects |
| Boards.Board.AnyAttacker | client/src/core/board.js:91-101 | the nested loops find an attacker exactly when some enemy man reaches the square |
| Boards.Board.IsKingInDanger | client/src/core/board.js:84-102 | danger exactly when the cached or given square is attacked; a missing square counts as danger |
| Boards.Board.InitBoard | client/src/core/board.js:17-23 | afterwards grid and general cache are those of the listing, with fresh pieces that know their squares |
| Boards.Board.PlacePiece | client/src/core/board.js:25-66 | adds one man and keeps every piece on its own coordinates |
| Boards.Board.UpdateKingCache | client/src/core/board.js:68-72 | the cache moves exactly for generals |
| Boards.Board.Relocate | client/src/core/gameController.js:172-187 | the two square writes and the coordinate writes shift one man and keep coherence |
| Boards.Board.Simulate | client/src/core/board.js:104-114 | the edited copy shows the position after the move, is coherent, and the live board is not written |
| Boards.Board.IsSuicideMove | client/src/core/board.js:104-122 | the verdict is danger in the position after the move, and only scratch table slots may have been written |
| Boards.Board.MovePiece | client/src/core/board.js:74-82 | accepts exactly the legal moves of a piece that stands where it believes to stand |
| Boards.Board.HasValidMoveFrom | client/src/core/board.js:129-137 | true exactly when the piece has a legal target |
| Boards.Board.HasValidMoves | client/src/core/board.js:124-142 | true exactly when some man of the colour has some legal move |
| Boards.Board.CheckWinner | client/src/core/board.js:144-150 | names the opponent exactly when the side to move has no legal move |
| Boards.CachedIsListed | client/src/core/board.js:62-64 | a cached square comes from a listed general of that colour |
| Boards.ListedIsPlaced | client/src/core/board.js:17-23 | every listed square is occupied, and a listed general leaves its colour cached |
| Controllers.GameController.constructor | client/src/core/gameController.js:5-40 | a new controller shows the initial position with Red to move |
| Controllers.GameController.Reset | client/src/core/gameController.js:77-89 | restores the initial game and drops the selection |
| Controllers.GameController.HandleResign | client/src/core/gameController.js:118-120 | only stops the game |
| Controllers.GameController.HandleBoardClick | client/src/core/gameController.js:122-159 | one click on the objects is one step of the turn machine |
| Controllers.GameController.DecideClick | client/src/core/gameController.js:122-156 | a click is played exactly when it is a legal move of the selected piece, and otherwise only the selection changes |
| Controllers.GameController.ExecuteMove | client/src/core/gameController.js:161-198 | board, caches, turn, status, selection and events after a move |
| Controllers.GameController.LookAheadThenMove | client/src/core/board.js:104-122 | the look-ahead's verdict equals the danger test after the move is really made |
| Controllers.GameController.ValidateMove | client/src/core/gameController.js:309-328 | only presence and colour are tested, since no piece defines canMove |
| Controllers.GameController.CheckGameStatus | client/src/core/gameController.js:207-240 | status and game-over event follow the verdict for the side to move |
| Playing.TwoClicksPlayExactly | client/src/core/gameController.js:122-159 | selecting a man of the side to move and clicking a square plays that move exactly if it is legal, whatever was selected before, and otherwise moves nothing |
| Playing.OtherClicks | client/src/core/gameController.js:130-156 | a click on the selected man drops the selection; one on any other square that is no own man and no legal target changes nothing |
| Playing.StoppedGameStands | client/src/core/gameController.js:118-125 | after a resignation no further input but a reset changes anything, in any run |
| Playing.ResetStartsAfresh | client/src/core/gameController.js:77-89 | after a reset every run goes as from the start, with Red to move; only the events already out stay |
| Playing.EventsTellTheGame | client/src/core/gameController.js:161-240 | whoever hears only the events of a run of clicks knows the position, the side to move and whether the game is over |
| Playing.WithoutGeneralLost | client/src/core/board.js:84-150 | a side with no general, on the board or in the cache, has no legal move and has lost by checkmate |
| Opening.BothAreTheOpening | client/src/core/config.js:1-2 | both listings hold exactly the men of the opening, square by square |
| Opening.OpeningIsTheDiagram | client/src/core/config.js:1-2 | the opening is the diagram of the board |
| Opening.OpeningSquares | client/src/core/config.js:1-10 | the board set up from a listing is the opening |
| Opening.OpeningKings | client/src/core/board.js:62-64 | after set-up the caches point at both home squares |
| Opening.ListingsAgree | client/src/pages/replay.js:16-50 | the replay page's listing sets up the same board and caches as the game's |
| Safety.RulesConfine | client/src/pieces/Elephant.js:14-34 | short of the flying capture no rule takes a man off its palace, elephant, advisor or pawn points |
| Safety.NoGeneralTaken | client/src/core/board.js:74-122 | while the invariant holds a legal move takes at most an enemy man that is not a general |
| Safety.ShiftKeepsGenerals | client/src/core/board.js:68-72 | after a move that takes no general each side still has exactly one, on its cached square |
| Safety.MoveKeepsInv | client/src/core/gameController.js:161-198 | an accepted move keeps the invariant: one cached general each, men on their points, the mover safe, a legal reply unless over |
| Safety.StepKeepsInv | client/src/core/gameController.js:77-159 | every click, resignation and reset keeps it |
| Safety.OpeningInv | client/src/core/config.js:1-2 | the opening satisfies it |
| Safety.RunKeepsInv | client/src/core/gameController.js:77-205 | every run keeps it |
| Safety.NoAcceptedMoveTakesAGeneral | client/src/core/board.js:68-122 | in no run from the opening is a capture of a general accepted |
| Safety.FacingIsAttack | client/src/pieces/General.js:15-33 | two generals on an open column attack each other |
| Safety.GeneralsNeverFace | client/src/pieces/General.js:15-63 | in every reachable position each side has one general and they do not face each other |
| Safety.GeneralsOnlyStep | client/src/pieces/General.js:35-63 | the flying capture is never played: an accepted general move is one step inside the palace |
| Safety.PawnsNeverRetreat | client/src/pieces/Pawn.js:14-32 | a pawn move gains a rank or is sideways beyond the river, and keeps its column before it |
| Safety.ShiftCounts | client/src/core/gameController.js:172-173 | a move changes the count of each kind of man by exactly what it takes |
| Safety.MenAreConserved | client/src/core/gameController.js:122-198 | over every run men on the board plus men taken since the last reset are the men of the start |
| Symmetry.ReachesImage | client/src/pieces/General.js:35-63 | every piece's rule is preserved by half-turn with colours swapped and by left-right mirroring |
| Symmetry.InDangerImage | client/src/core/board.js:84-102 | so is the danger test |
| Symmetry.LegalImage | client/src/core/board.js:104-122 | so is legality, including the self-check |
| Symmetry.HasLegalImage | client/src/core/board.js:124-142 | so is having a legal move |
| Symmetry.StepImage | client/src/core/gameController.js:122-240 | the image of a step is the step on the image |
| Symmetry.RunImage | client/src/core/gameController.js:122-240 | the image of a run is the run of the images |
| Symmetry.MirroredGame | client/src/core/config.js:1-2 | the opening is its own mirror image, so mirrored clicks play the mirrored game |
| NetworkControllers.NetworkGameController.HandleMatchFound | client/src/core/networkGameController.js:171-196 | a new match: the board reset, online, and Red to start |
| NetworkControllers.NetworkGameController.HandleBoardClick | client/src/core/networkGameController.js:198-262 | a click, whatever is in flight, selects, deselects or sends a request, the last exactly for a legal move of the own turn, and changes no board before the answer |
| NetworkControllers.NetworkGameController.ExecuteMove | client/src/core/networkGameController.js:198-262 | refused out of turn or for a foreign piece, else sent when online, again if one is in flight, and played when offline |
| NetworkControllers.NetworkGameController.OnAnswer | client/src/core/networkGameController.js:229-258 | answers the oldest request in flight: nothing if it was given up; an accepted move is played by whatever piece is selected then, and not at all without one; a refusal gives up the turn only if it says so; a game that ends is reported |
| NetworkControllers.NetworkGameController.OnTimeout | client/src/network/cClientBridge.js:104-107 | a request not answered in time is given up; board, turn and selection stay |
| NetworkControllers.NetworkGameController.HandleOpponentMove | client/src/core/networkGameController.js:264-293 | plays the piece found on the origin whoever's turn it was and whatever is in flight, then the turn is mine; nothing if there is none; a game that ends is reported |
| NetworkControllers.NetworkGameController.HandleGameEnd | client/src/core/networkGameController.js:351-357 | the end of the match takes the controller offline and changes no board |
| Silence.OutOfTurnIsSilent | client/src/core/networkGameController.js:213-216 | out of turn no sequence of clicks sends anything or changes more than the selection |
| Silence.OfflineIsLocal | client/src/core/networkGameController.js:255-257 | offline the clicks are those of a game on one screen |
| Silence.OfflineIsSilent | client/src/core/networkGameController.js:255-257 | and send nothing |
| Silence.RefusalSilences | client/src/core/networkGameController.js:246-253 | a refusal for the turn silences the client and changes no board; any other refusal leaves it its turn |
| Silence.OwnMoveSilences | client/src/core/networkGameController.js:229-236 | after its own accepted move the client sends nothing until an opponent's move finds its man |
| Silence.AcceptedWithoutSelection | client/src/core/gameController.js:161-163 | an accepted move that finds no man selected changes neither board nor turn |
| Silence.EndIsReported | client/src/core/networkGameController.js:37-48 | online the client reports exactly the game that a message ended, once and for its winner; offline nothing |
| Silence.EndSilences | client/src/core/networkGameController.js:351-357 | after the end of the match the client sends nothing, whatever is clicked, and the board stands |
| Logs.FoldTurn | server/src/handlers/handlers_match.c:23-29 | the turn of the game a legal log leads to is the parity of its length |
| Logs.FoldIsSafe | client/src/core/networkGameController.js:264-293 | every prefix of a legal log leads to a position satisfying the safety invariant |
| Agreement.HonestRequest | server/src/handlers/handlers_match.c:3-78 | an accepted request is the mover's, in a match that is on, logged as sent and announced to the opponent |
| Agreement.RefusalFacts | server/src/handlers/handlers_match.c:26-58 | a refusal says "not your turn" only when it is not, and leaves log, result and players as they were |
| Replicas.ClickKeepsSide | client/src/core/networkGameController.js:198-262 | any click, with requests in flight or not, keeps a client's half of the protocol invariant |
| Replicas.GiveUpKeepsSide | client/src/network/cClientBridge.js:104-107 | giving up a request keeps it |
| Replicas.ReadKeepsSide | client/src/core/networkGameController.js:229-293 | reading a message keeps it, if an accepting answer finds its request awaited and its piece selected |
| Agreement.ServeKeeps | server/src/handlers/handlers_match.c:3-78 | the server's handling of one move request or game-over report keeps the invariant of the whole, if an accepted request is legal there |
| Agreement.CloseKeeps | server/src/match.c:124-134 | so does any ending of the match by the server, announced to both clients or, for a timeout the drain dropped, to none |
| Agreement.NextKeeps | client/src/core/networkGameController.js:198-293 | so does every careful step |
| Agreement.RunKeeps | client/src/core/networkGameController.js:198-293 | and every careful interleaving of steps |
| Agreement.ClientsFollowTheLog | client/src/core/networkGameController.js:198-293 | at every moment of a careful run the log is a legal game and each client not yet told of the end shows a prefix of it, behind by at most two moves for each request in flight and one more out of turn |
| Agreement.ReplicasAgree | server/src/handlers/handlers_match.c:3-78 | after a careful run with nothing in transit, until the end is announced or once the game is over, both boards are the fold of the log, both turns its parity, and the position is safe; until the announcement exactly one client may move and nothing is awaited |
| Agreement.MateIsSettledForTheWinner | server/src/handlers/handlers_match.c:252-335 | over every careful run the match ends and is paid for at most once; an ending by report is recorded and the players' rows settled for the side that mate or stalemate at the end of the log makes the winner, whichever client's report came first; a finished game does not stay open |
| Agreement.WinnerIsPaid | server/src/handlers/handlers_match.c:276-309 | such a settlement of a rated match between two users gives the winner a win and exactly the points the loser loses, never fewer than none |
| Agreement.MateIsReported | client/src/core/networkGameController.js:37-48 | unless the server ended the match otherwise, a finished game whose messages have arrived was ended by a report |
| Following.AcceptedMoveShowsExactly | client/src/core/networkGameController.js:229-258 | at any moment of a careful run, if the next message accepts a request, the client will show the accepted move exactly if that request is still awaited and its piece is the selected one |
| Following.AcceptedRequestIsLegalExactly | server/src/handlers/handlers_match.c:26-58 | a legal log stays legal exactly if the accepted request is a legal move of the game it has reached, which the server does not test |
| Following.BoardsFollowExactly | client/src/core/networkGameController.js:198-293 | a run from a new match keeps the log legal and both boards in step with it at every moment exactly if every step is careful |
| Lapses.ALapsePartsTheBoards | client/src/core/gameController.js:136-153 | for every legal first move: if Red selects another man or deselects his while the request is in flight, or it times out, the log and Black's board have the move and Red's board never shows it |
| Lapses.ARepeatedRequestBreaksTheLog | client/src/core/networkGameController.js:229-232 | for every legal first move and reply: a second click on the target is sent too, and the server logs it as Red's second move, which is not legal |
| Lapses.TheEdgePawn | client/src/core/gameController.js:136-153 | both happen from the opening, with the pawn on the left edge |
| Patience.PatientIsCareful | client/src/core/networkGameController.js:198-293 | a run in which no client with a request in flight changes its selection or sends another, and none times out, is careful, whatever the server and the network do |
| Patience.PatientPlayersAgree | server/src/handlers/handlers_match.c:3-78 | so in it both boards agree with the log whenever nothing is in transit, until the end is announced |
| Pairing.FoundStartsAfresh | client/src/core/networkGameController.js:171-196 | whatever went before, a client told of a match is online on the start position with Red to move, and may move exactly if it plays Red |
| Pairing.OnlyRedAsksFirst | client/src/core/networkGameController.js:171-216 | of two clients that try the same legal first move exactly Red's sends it |
| Pairing.FoundIsMatched | server/src/match.c:29-60 | the record made for two different users and two unused clients told of it are the world every run above begins in |
| Pairing.PairedPlayersAgree | server/src/match.c:29-60 | so from any state of the server's table with a free slot, patient players' boards agree with the log of the match made |
| Pairing.EndingIsTheServers | server/src/handlers/handlers_match.c:95-335 | a resignation, draw or report does to slot and users of the server's table what the world's ending does to its record and rows |
| Pairing.TimeoutIsTheServers | server/src/match.c:378-418 | so does a timeout, settled or dropped |
| Replays.SpectateManager.JoinSpectate | client/src/pages/game/spectateManager.js:58-79 | the catch-up loop on the shared objects is the fold of the move list, skipping bad coordinates and empty origins |
| Replays.SpectateManager.CatchUpOne | client/src/pages/game/spectateManager.js:61-79 | one listed move on the objects, keeping every piece on its coordinates |
| Replays.ReplayPage.GoToMove | client/src/pages/replay.js:319-341 | the page shows the opening followed by the moves up to the clamped index, whatever it showed before |
| Replays.ReplayPage.GoToFirst | client/src/pages/replay.js:299-301 | the opening |
| Replays.ReplayPage.GoToPrev | client/src/pages/replay.js:303-307 | one move back, or nothing at the start |
| Replays.ReplayPage.GoToNext | client/src/pages/replay.js:309-313 | one move forward, or nothing at the end |
| Replays.ReplayPage.GoToLast | client/src/pages/replay.js:315-317 | the whole game |
| Replays.ReplayPage.Use | client/src/pages/replay.js:288-317 | after any sequence of controls the page shows the prefix of the index they lead to |
| Replays.SteppingIsJumping | client/src/pages/replay.js:299-341 | the index after stepping forward any number of times is that of one jump, so by `ReplayPage.Use` the page shown is the same |
| Replays.NextThenPrev | client/src/pages/replay.js:303-313 | forward then back leads to the same index exactly when there was a next move or there are no moves |
| Replays.SteppingEnds | client/src/pages/replay.js:299-317 | stepping back or forward often enough leads to the first or the last position, from anywhere |
| Replays.SpectatorSkipsExactly | client/src/pages/game/spectateManager.js:60-80 | an entry is skipped exactly if a square is off the board or its origin is empty, and a skipped one might as well not be listed |
| Replays.ReplaySkipsByRow | client/src/pages/replay.js:319-341 | the replay page skips empty origins and missing rows only; to a missing column the man goes off the drawn board |
| Replays.SpectatorStepIsLive | client/src/pages/game/spectateManager.js:67-75 | for on-board moves the spectator's placement step is the live one |
| Replays.ReplayStepIsLive | client/src/pages/replay.js:328-333 | writing the target before clearing the origin agrees with the live order exactly when the two differ |
| Replays.AppliersAgree | client/src/pages/replay.js:319-341 | for every legal game and every prefix live play, catch-up and replay show the same placement |
| Matches.OneChargeIsInvisible | server/src/match.c:303-376 | one more charge in between changes no later charge, timeout test, clock view or sweep verdict |
| Matches.ChargesAreInvisible | server/src/match.c:303-418 | any number of charges equals one lazy charge since the last reset |
| Matches.LazyChargeMeaning | server/src/match.c:325-376 | that charge is the clock of the side to move less the seconds passed, at least zero, and timeout is exactly its exhaustion |
| Matches.TimeoutTestIsDefined | server/src/match.c:330-336 | the test's subtraction fits an int exactly unless the low 32 bits of the milliseconds lie from 2^31 to one clock beyond |
| Matches.TimeoutTestIsExact | server/src/match.c:325-338 | the test, subtracting over the integers, tells the truth exactly when the gap fits the cast or its low 32 bits of milliseconds lie between the clock and 2^31 |
| Matches.TimeoutTestWraps | server/src/match.c:330-331 | a gap of fifty days for which a spent clock is not seen |
| Decimals.ValueOfDec | server/src/match.c:46 | decimal printing loses nothing |
| Decimals.DecIsCanonical | server/src/match.c:46 | no printed number but zero starts with a zero |
| Decimals.DecThenMark | server/src/match.c:46 | two printed numbers followed by a non-digit are equal only if number and rest are |
| Decimals.AtoiOfDec | server/src/protocol.c:57 | atoi reads back a printed number up to the next non-digit |
| Decimals.AtoiOfDecInt | server/src/protocol.c:148 | and so for every printed integer |
| Ratings.Expected | server/src/rating.c:6-8 | the expected score is strictly between zero and one |
| Ratings.RoundIsOdd | server/src/rating.c:29-30 | rounding half away from zero is odd |
| Ratings.OppositeDeltas | server/src/rating.c:29-30 | opposite score differences give opposite rounded changes |
| Ratings.DeltaIsBounded | server/src/rating.c:29-30 | a change is at most K and never negative for a non-negative difference |
| Ratings.ChangesCancel | server/src/rating.c:10-33 | for every result the two changes cancel, are at most K, and a winner never loses points |
| Ratings.WeakerIsNotFavoured | server/src/rating.c:6-8 | the lower rated side's expected score is at most one half |
| Ratings.DrawPaysTheWeaker | server/src/rating.c:24-30 | a draw never costs Red points against a stronger or equal Black |
| Ratings.EqualsShareTheStake | server/src/rating.c:18-30 | between equal ratings the winner gains 16, the loser loses 16 and a draw moves nothing |
| Ratings.OddsArePowers | server/src/rating.c:6-8 | the odds of two players are ten to the power of their difference over 400, and their expected scores add up to one |
| Ratings.OddsMultiply | server/src/rating.c:6-8 | odds multiply along a chain of players |
| Ratings.TenToOne | server/src/rating.c:6-8 | 400 points are ten to one |
| Ratings.FourHundredPoints | server/src/rating.c:10-33 | against somebody 400 points stronger a win is worth 29, a loss costs 3 and a draw brings 13, at every rating |
| Ratings.StrongerIsWorthMore | server/src/rating.c:10-33 | the stronger the opponent, the more a win is worth and the less a loss costs |
| Servers.MatchServer.MatchCreate | server/src/match.c:29-60 | a new match takes the first free slot with a fresh id, or the table is unchanged |
| Servers.MatchServer.MatchGet | server/src/match.c:62-69 | the first slot with the id, none only if there is none |
| Servers.MatchServer.HandleMove | server/src/handlers/handlers_match.c:17-68 | logs the move, resets both clocks and passes the turn, or refuses for the reason the source gives with only the clock charged |
| Servers.MatchServer.FinishMatch | server/src/handlers/handlers_match.c:97-139 | the shared ending: match closed, ratings and counters of both players updated if rated, id settled |
| Servers.MatchServer.HandleResign | server/src/handlers/handlers_match.c:80-152 | the other side wins; refused without effect for an unknown or finished match |
| Servers.MatchServer.HandleDrawResponse | server/src/handlers/handlers_match.c:179-250 | an acceptance, by whoever sends it and with or without an offer, ends an active match drawn; anything else changes nothing |
| Servers.MatchServer.HandleGameOver | server/src/handlers/handlers_match.c:252-335 | an active match ends with the reported result, a finished one is left alone |
| Servers.MatchServer.MatchEndAborted | server/src/handlers/handlers_lobby.c:120-125 | the rollback ends the match and settles nothing |
| Servers.MatchServer.MatchCheckAllTimeouts | server/src/match.c:378-418 | every expired match is closed against the side to move, and queued in slot order while there is room |
| Servers.MatchServer.MatchGetPendingTimeouts | server/src/match.c:420-430 | at most the given number is returned and the queue is emptied in any case |
| Servers.MatchServer.TimeoutRound | server/src/server.c:384-417 | one round: sweep, drain at most 100, settle each |
| Lifecycle.IdsDiffer | server/src/match.c:46 | ids printed for different counts or times differ |
| Lifecycle.OneSlot | server/src/match.c:62-69 | an id leads to the one slot that has it |
| Lifecycle.CountIsOccupancy | server/src/match.c:34-41 | the counter is the number of slots with an id |
| Lifecycle.CreateSucceeds | server/src/match.c:29-44 | creation succeeds exactly while fewer than 500 matches were made |
| Lifecycle.StepKeepsInv | server/src/handlers/handlers_match.c:3-335 | every operation keeps table, double turn, log bound and settlement list, and continues every match |
| Lifecycle.RunIsSound | server/src/match.c:75-134 | over every run: settled at most once, ids and players fixed, logs append-only and at most 300, a finished match frozen |
| Lifecycle.InitialInv | server/src/match.c:15-22 | the empty table satisfies the invariant |
| Lifecycle.StepSettles | server/src/handlers/handlers_match.c:80-335 | settled ids are only added, and never one that was already over |
| Lifecycle.SweepEffect | server/src/match.c:378-430 | the table and the ids settled after one round |
| Lifecycle.SettledInItsRound | server/src/server.c:384-389 | in its own round a timed-out match is settled exactly if fewer than 100 expired slots precede it |
| Lifecycle.UnsettledStaysUnsettled | server/src/match.c:124-134 | a match over without settlement is never settled |
| Lifecycle.SettledStays | server/src/handlers/handlers_match.c:80-335 | a settled id stays settled over every run |
| Lifecycle.TimeoutSettledExactly | server/src/server.c:383-389 | over every later run too it is settled exactly in that case |
| Lifecycle.HundredAndFirstIsLost | server/src/server.c:386-389 | of 101 matches that run out of time together the last is closed and never settled, whatever follows |
| Lifecycle.TurnTestsAgree | server/src/match.c:75-81 | for every user, the string turn test and the parity test agree exactly on Red's turn, or on Black's for the two players of a match between two users |
| Lifecycle.ThirdUserMovesForBlack | server/src/handlers/handlers_match.c:23-51 | a user who is neither player is accepted exactly on Black's turn while match, clock and log allow |
| Lifecycle.SelfMatchStalls | server/src/handlers/handlers_match.c:23-29 | a user matched with himself is always refused the second move |
| Conservation.SettlementConserves | server/src/handlers/handlers_match.c:276-309 | between two users one settlement keeps total rating and wins less losses, and adds two draws exactly for a rated draw |
| Conservation.SelfSettlement | server/src/handlers/handlers_match.c:301-305 | for a user matched with himself only the write for Black stays: 16 points and a win up or down, or one draw |
| Conservation.SettlementConservesExactly | server/src/handlers/handlers_match.c:276-309 | each total is conserved exactly unless a rated match of a user against himself is won, lost or drawn |
| Conservation.RunConserves | server/src/handlers/handlers_match.c:80-335 | over every run without a timeout and without a rated match of a user against himself, total rating is unchanged, total wins equal total losses, draws rise in pairs |
| Conservation.SelfMatchMints | server/src/match.c:29-60 | from any state with a free slot, a rated match of a user against himself followed by his resignation adds 16 points and a win |
| Conservation.TimeoutCosts | server/src/server.c:391-417 | what a timeout takes out of the system, exactly, for two users and for one |
| Outcomes.RedMovesFirst | server/src/match.c:46-57 | in a match just made Black is refused exactly if he is another user than Red, and Red's move is taken exactly until the starting clock runs out |
| Outcomes.TheOtherSideIsNext | server/src/match.c:109-121 | after an accepted move only the other player is on turn, with exactly ten minutes whatever the clocks showed |
| Outcomes.AcceptedExactly | server/src/handlers/handlers_match.c:23-58 | a move is accepted exactly from the user whose turn the log's length says it is, in a match that is on, while the mover's clock lasts and fewer than 300 moves are logged |
| Outcomes.MoveIsCharged | server/src/handlers/handlers_match.c:23-58 | an accepted move is logged at its time with the clocks the view showed when it came in, and then both have ten minutes; a refusal for clock or space charges the same and keeps the log; one for the turn changes nothing |
| Outcomes.SpentClockIsEmptied | server/src/match.c:303-324 | a clock that ran out unseen is found empty, the other untouched, and the move refused |
| Outcomes.SquaresAreLoggedExactly | server/src/handlers/handlers_match.c:39-43 | an accepted move is logged on its squares exactly if every coordinate fits a signed char |
| Outcomes.ClipKeepsThePrefix | server/src/match.c:124-134 | result and reason are stored as their longest prefix that fits |
| Outcomes.EndingIsRecorded | server/src/handlers/handlers_match.c:95-335 | a resignation, an accepted draw or a report ends an active match with its result and reason, keeps its log, clocks and players and every other match, and settles its id |
| Outcomes.FirstEndingCounts | server/src/handlers/handlers_match.c:95-335 | only the first ending of a match counts |
| Outcomes.AbortedIsOver | server/src/handlers/handlers_lobby.c:125 | a rolled-back match is over as aborted, unpaid, and takes no move and no ending afterwards |
| Outcomes.TimedOutIsLost | server/src/match.c:378-418 | a round closes exactly the matches out of time, for the side not to move, as it queues them, and keeps their logs |
| Outcomes.DrawIsShared | server/src/handlers/handlers_match.c:179-250 | an agreed draw of a rated match between two users counts for both, moves points only from the higher rated to the lower, and touches nobody else |
| Outcomes.ResigningNeverPays | server/src/handlers/handlers_match.c:95-128 | between two users, whoever sends the resignation of a rated match: Red loses if it is Red, Black otherwise; the loser gets the loss and gains no points, the other gets the win and exactly the points lost, nobody else changes |
| Outcomes.ResigningIsOnesOwnExactly | server/src/handlers/handlers_match.c:95-128 | the sender gets the loss exactly if he plays in the match; a third user is untouched and Black gets it |
| Outcomes.ResigningPaysExactly | server/src/handlers/handlers_match.c:95-128 | resigning a rated match gains its sender points exactly when he was matched with himself |
| Outcomes.TimeoutPunishesTheMover | server/src/server.c:391-417 | between two users a timeout costs the side to move at least the penalty, down to 100, and leaves it one loss; it costs the other side nothing and leaves it one win; nobody else is touched |
| Outcomes.SelfTimeout | server/src/server.c:391-417 | what it does to a user matched with himself: rating, record, and exactly when it costs him the penalty |
| Outcomes.UnknownCountsAs1500 | server/src/server.c:391-397 | an opponent the server does not know counts as one rated 1500 and is not stored |
| Outcomes.RunKeepsUsers | server/src/handlers/handlers_match.c:80-335 | no operation of any run adds or removes a user |
| Outcomes.RoundSparesOthers | server/src/server.c:385-417 | a round leaves alone whom none of its timeouts concerns |
| Outcomes.RoundSettlesEach | server/src/server.c:385-417 | a timeout that alone concerns its players is settled as if it were the only one of the round |
| Outcomes.RoundPunishesTheMover | server/src/server.c:376-417 | so after a whole round whoever ran out of time has one loss and at least the penalty less, his opponent one win and no fewer points |
| Timing.CastIsExact | server/src/match.c:308-309 | with punctual rounds the cast to milliseconds is exact and the subtraction from the clock fits an int |
| Timing.StepStaysTimed | server/src/match.c:101-122 | every operation keeps clocks in range and the last move recent |
| Timing.RunStaysTimed | server/src/match.c:303-418 | so does every run |
| Timing.NoOverflowInAnyRun | server/src/match.c:303-418 | from server start clocks stay in 0..600000 and neither an elapsed time nor its subtraction overflows |
| Framing.SplitIsIncremental | server/src/server.c:268-286 | reading two pieces is reading the second on top of the first's unfinished line |
| Framing.SplitOfJoined | server/src/server.c:271-279 | a stream made of lines gives exactly the non-empty ones and keeps the unfinished rest |
| Framing.EveryStreamIsJoined | server/src/server.c:271-279 | every NUL-free stream is such a stream |
| Framing.LineBuffer.FindNewline | server/src/server.c:271 | strchr on the terminated contents |
| Framing.LineBuffer.MoveDown | server/src/server.c:283 | memmove of overlapping bytes within the buffer |
| Framing.LineBuffer.Requested | server/src/server.c:246-247 | recv is always asked for at least one byte, so zero means end of stream |
| Framing.LineBuffer.ScanLines | server/src/server.c:268-279 | the in-place loop delivers exactly the complete non-empty lines and stops where the tail starts |
| Framing.LineBuffer.DeliverLines | server/src/server.c:268-286 | afterwards the buffer holds exactly the unfinished line |
| Framing.LineBuffer.HandleClientRead | server/src/server.c:244-293 | one chunk: messages, tail, and disconnection exactly when the tail fills the buffer |
| Framing.LineBuffer.ClientProcessMessages | client/lib/client.c:188-228 | one chunk on the client, a full buffer being dropped first |
| Streams.FeedIsRead | server/src/server.c:244-293 | feeding chunks is reading their concatenation |
| Streams.ChunkingStops | server/src/server.c:288-292 | a legal chunking ends with the stream or at the first byte that fills the buffer |
| Streams.ChunkIndependence | server/src/server.c:244-294 | any two splits consume the same bytes, deliver the same messages and end in the same state |
| Streams.OverflowIsLongLine | server/src/server.c:288-292 | the server disconnects exactly when a line reaches 16383 bytes without a newline |
| Streams.ClientAgrees | client/lib/client.c:188-228 | while lines stay below that length the client's reader delivers what the server's would, under any chunking |
| Streams.FullBlock | client/lib/client.c:193-199 | what the client drops is exactly 16383 bytes |
| Streams.ClientChunkIndependence | client/lib/client.c:188-228 | on every stream and for every legal split the client delivers the same: up to a full buffer what the server would, then, those bytes dropped, the rest read afresh |
| Streams.ScanIsRead | server/src/protocol.c:231-246 | splitting at newlines byte by byte is what the readers do |
| Streams.ExtractMessages | server/src/protocol.c:211-252 | the batch splitter returns exactly the non-empty complete lines |
| Sending.SentIsDelivered | server/src/server.c:268-286 | the reader at the other end delivers exactly the NUL-free lines one side sent, without the empty ones, and keeps nothing |
| Sending.SendBuffer.ClientSend | server/src/server.c:170-186 | a message is queued whole or refused, exactly by the room left |
| Sending.SendBuffer.HandleClientWrite | server/src/server.c:296-323 | under any partial sends the bytes taken are a prefix of the accepted lines, all of them exactly when the buffer empties |
| Sending.ClientSendJson | client/lib/client.c:142-186 | what was sent is a prefix of the line, and success means exactly the whole line |
| Sending.DeliveredAsReportedExactly | client/lib/client.c:162-183 | over any sequence of calls on one connection the server is delivered exactly the non-empty messages whose call succeeded if and only if no call succeeds after a failed one that got something out |
| Protocol.UnescapeEscape | server/src/protocol.c:169-209 | both escapes have a left inverse |
| Protocol.EscapeIsOneLine | server/src/protocol.c:169-209 | an escape has no raw newline and at most doubles the length |
| Protocol.EscapeEndsAtItsQuote | server/src/protocol.c:169-209 | a reader that honours backslashes finds the end of an escaped string exactly where it was closed |
| Protocol.EscapeIsStrictExactly | server/src/handlers/handlers_common.c:3-45 | an escape has no raw control character exactly if the text had none but those it escapes |
| Protocol.ValueBehindBlanks | server/src/protocol.c:19-21 | a lookup finds the same value behind any white space |
| Protocol.FindsTheFirst | server/src/protocol.c:15-17 | the search finds the first occurrence, and none only if there is none |
| Protocol.MissingKeys | server/src/protocol.c:113-132 | without type or payload there is no message, without seq its number is 0, without token it has none |
| Protocol.JsonEscape | server/src/protocol.c:169-209 | the loop writes the escape and its NUL within the allocation |
| Protocol.CutFits | server/src/handlers/handlers_common.c:11-43 | the bounded escape fits, and wastes at most one place when it cuts |
| Protocol.EscapeJsonString | server/src/handlers/handlers_common.c:3-45 | the destination holds the escape of a whole prefix, never half a pair, and its NUL |
| Protocol.ExtractPayload | server/src/protocol.c:78-111 | the loops compute the payload function on every line |
| Protocol.ClosingBrace | server/src/protocol.c:90-110 | the scan ends behind the brace that closes the first one, or fails if none does |
| Protocol.BraceEndOf | server/src/protocol.c:90-110 | on balanced text the scan ends exactly at its end, whatever follows |
| Protocol.LineIsWritten | server/src/protocol.c:143-159 | a line has the text JSON.stringify and the format string give it |
| Protocol.ParseLine | server/src/protocol.c:113-132 | a line in the client's key order is read back exactly when type and token are quote-free and the payload's braces balance |
| Protocol.ParsedIsPrintable | server/src/protocol.c:113-132 | whatever text is parsed, the result is quote-free and balanced |
| Protocol.BorrowedBrace | server/src/protocol.c:90-110 | a payload that lacks its last brace is read with the one that closes the line |
| Protocol.ChatBraceIsMisread | client/src/network/apiMethods.js:82-84 | a chat message with one opening brace is such a payload: it is read with a brace too many |
| Protocol.EscapedValueRoundTrip | server/src/protocol.c:8-40 | a value escaped with json_escape is read back exactly when it needed no escaping, since the parser stops at the first quote and does not unescape |
| Protocol.CutLineIsRejected | server/src/protocol.c:126-129 | a line cut before the end of its payload is not parsed |
| Protocol.ResponseRoundTrip | server/src/protocol.c:143-159 | a response is read back exactly when it is printable in that sense and its line is at most 4096 characters |
| Lobbies.ShiftedIsWithout | server/src/lobby.c:59-70 | in a duplicate-free queue one shift is filtering the user out |
| Lobbies.BestIsUnique | server/src/lobby.c:109-117 | at most one queue position is the earliest of the nearest |
| Lobbies.WithoutForgets | server/src/lobby.c:59-70 | a removed user is nowhere in the queue |
| Lobbies.Lobby.SetReady | server/src/lobby.c:29-57 | refreshes in place, appends while there is room, or removes; the queue stays duplicate-free and at most 100 |
| Lobbies.Lobby.RemovePlayer | server/src/lobby.c:59-70 | the queue without the user, order kept |
| Lobbies.Lobby.FindRatedMatch | server/src/lobby.c:105-127 | the earliest among the nearest within tolerance; exactly both leave; fails unchanged exactly when nobody qualifies |
| Lobbies.Lobby.FindRandomMatch | server/src/lobby.c:91-103 | the first other player; exactly both leave; fails unchanged exactly when there is none |
| Lobbies.Lobby.NewRoom | server/src/lobby.c:129-147 | the first free slot is written field by field, or nothing changes |
| Lobbies.JoinIsGuarded | server/src/lobby.c:158-180 | joining succeeds exactly if the first occupied room with the code has no guest and no password or the one given; only that room's guest changes, otherwise nothing |
| Lobbies.CloseIsGuarded | server/src/lobby.c:182-195 | closing succeeds exactly for the host of that room, which alone is cleared |
| Lobbies.LeaveIsGuarded | server/src/lobby.c:237-254 | leaving succeeds exactly for guest and host of that room; the guest's seat is emptied, without the host the room is cleared, and no other room changes |
| Lobbies.Lobby.Join | server/src/lobby.c:158-180 | a guest enters only an existing room with the right password and no guest |
| Lobbies.Lobby.Close | server/src/lobby.c:182-195 | only the host clears the slot |
| Lobbies.Lobby.Leave | server/src/lobby.c:237-254 | a guest leaves, the host's leaving clears the slot, others change nothing |
| Lobbies.Lobby.CleanupRoomsForUser | server/src/lobby.c:324-337 | every room is cleaned of the user |
| Lobbies.Lobby.Disconnect | server/src/server.c:139-142 | after a disconnect no queue entry and no room mentions the user |
| Lobbies.Lobby.NewChallenge | server/src/lobby.c:256-272 | the first free slot holds a pending challenge for 60 seconds |
| Lobbies.AcceptIsGuarded | server/src/lobby.c:283-299 | accepting succeeds exactly if the first slot with the id is addressed to the user and has not expired; then at most that status changes, otherwise nothing |
| Lobbies.Lobby.Accept | server/src/lobby.c:283-299 | the same of the table in place |
| Lobbies.Lobby.Decline | server/src/lobby.c:301-314 | only the addressee, and the slot is cleared |
| Lobbies.Lobby.CleanupExpiredChallenges | server/src/lobby.c:149-156 | exactly the expired slots are cleared |
| Lobbies.RunKeepsFreeZero | server/src/lobby.c:129-195 | over every run a free room or challenge slot is entirely zero |
| Lobbies.NewRoomIsClean | server/src/lobby.c:129-147 | so a new room never inherits a guest or password, although neither is cleared when it is made |
| Lobbies.JoinThenLeave | server/src/lobby.c:158-180 | joining a room and leaving it again restores every room |
| Lobbies.OpenThenClose | server/src/lobby.c:129-195 | opening a room under an unused code and closing it restores every room |
| Lobbies.ChallengeThenDecline | server/src/lobby.c:256-314 | a challenge declined by its addressee leaves the table as it was, and only the addressee can decline it |
| Lobbies.ChallengeThenAccept | server/src/lobby.c:256-299 | a new challenge can be accepted by its addressee alone and for exactly 60 seconds, is not swept away in that time, and accepting twice is accepting once |
| LobbyRules.ReadyIsQueued | server/src/lobby.c:29-57 | who says he is ready is in the queue with his new rating, in his old place or as the last, unless it is full and he was not in it; nobody else is touched |
| LobbyRules.ReadyIsFound | server/src/lobby.c:29-127 | so somebody within whose tolerance he is finds an opponent |
| LobbyRules.BestIsNearest | server/src/lobby.c:105-127 | nobody who may be paired is rated strictly nearer than the opponent found, or as near and before him in the queue |
| LobbyRules.OpenThenJoin | server/src/lobby.c:129-180 | a room just opened takes a guest exactly with its password cut to 63 characters, if it has one |
| LobbyRules.OneGuest | server/src/lobby.c:158-180 | a second guest is refused and changes nothing |
| LobbyRules.DisconnectIsLeaving | server/src/lobby.c:237-337 | for the room a code stands for, a disconnect does what leaving does exactly if the user is not both host and guest |
| LobbyRules.HostKeepsHisRoom | server/src/lobby.c:324-337 | when a guest disconnects the host's room stands and takes the next guest |
| LobbyRules.ChallengeKeepsItsTerms | server/src/lobby.c:256-299 | an accepted challenge keeps both players and its terms, and no other changes |

## Left out

- Conservation.RunConserves: timeouts are excluded, because that path overwrites statistics, ignores `rated` and adds a penalty; `Conservation.TimeoutCosts` states its exact loss instead.
- Matches.ChargesAreInvisible: needs the whole time since the last reset to fit the cast, because beyond it the cast wraps; `Matches.TimeoutTestIsExact` states what happens then.
- Lifecycle.StepKeepsInv: `match_end` for a failed notification is only called for the match just created, as matchmaking does; called later it would overwrite a finished match.
- Agreement.ReplicasAgree: assumes honest clients and a careful run, the exact condition of `Following.BoardsFollowExactly`; resignation, draw and timeout are one step in which the server ends the match, and a client told of such an end may play on offline, so nothing is claimed about its board then.
- Agreement.MateIsSettledForTheWinner: the answer to a game-over report is not a message, since the client does nothing with it.
- A move request that cannot be handed to the C client: it is never sent and changes nothing.
- Ratings.ChangesCancel: `pow` is a positive function over the reals and `round` is exact; floating-point effects are not modelled.
- Replays.AppliersAgree: claims placements only; neither page keeps the general cache, and the replay page keeps no coordinates.
- NetworkControllers.NetworkGameController.HandleOpponentMove: the target is on the board, as an honest client sends it; off the board the JavaScript would throw halfway or invent a column.
- Replays.ReplayPage.GoToMove: the page's grid is a map, because a JavaScript row takes a column outside 0..8; piece objects are not kept, since the page never reads their coordinates.
- Drawing, chat, pages, timers on screen and the launcher.
- Spectator mode of the online controller, spectator lists and broadcasts on the server.
- Sockets, polling, sessions, tokens, the database and its failures; an unknown user is left unchanged where the source would use an uninitialised rating.
- Persistence and reloading of matches, which does not restore the move log.
- `match_validate_move`, the JSON listings, leaderboard, profile and history.
- The prototype chain: the piece classes are one class with a `kind`, and the online controller owns a controller instead of extending one.
- The several clock readings within one call are one reading where they only label a record (match creation, rooms, challenges).
- Clipping of user names to 63 characters, `json_get_bool`, the 256-character key buffer, `atoi` overflow, `isspace` on negative characters, and failing allocations.
- The pause between retries in `client_send_json` and the change of polled events after a complete write.
- Uniqueness of random room codes, one match per challenge and one match per user, which the code does not guarantee.
