# Accessible Chess, modelled in Dafny

Accessible Chess keeps a chess position, prints and reads moves and positions as text, decodes ChessBase game
streams into trees of variations, analyses positions with an engine in the background, imports books from HTML and EPUB,
and remembers where a reader stopped in each. This project models those parts and proves what each is relied on for.

- **The chess core** (`acs/chesscore.py`, `acs/squares.py`). `Board.dfy` is the mutable board as the source has it: fields
  updated in place, loops over squares, steps and rays. Every method is proved equal to a function on positions, and the
  laws are proved of those functions: SAN printing and reading are inverse, FEN printing and reading are inverse, the two
  attack scans agree, every operation keeps the structural rules, and undo and redo move along one chain of positions. What
  the functions mean is stated apart from them: `MoveLaws.dfy` has the moves and castling in the words of the rules of chess,
  `Course.dfy` what a course of moves does to en passant, rights and counters, `FenMeaning.dfy` what FEN says square by square,
  `SanMeaning.dfy` what SAN says of the two boards.
- **The ChessBase stream decoder** (`acs/chessbase_decoder.py`). `DecoderClass.dfy` is the recursive loop over one shared
  mutable cursor and a graph of line objects. It is proved to build exactly what the function `Decode` says; `Decode` is
  proved to invert the token grammar, and every decoded tree to be legal, canonical and free of lost tokens.
- **The analysis coordinator** (`acs/analysis_service.py`): two locks, a generation counter and one engine, as interleaved
  steps of any number of threads.
- **The reading-progress store** (`acs/book_progress_store.py`): `Progress.dfy` has whole operations on two files that may stop
  at any point, be lost or be damaged; `ProgressStore.dfy` has the same operations as sequences of observations and replaces,
  with another writer free to act between any two, and is proved to refine the first when no such writer is there.
- **The HTML book importer's inline events** (`acs/book_html_import.py`): captures that open and close over a stream of
  markup events. `HtmlParser.dfy` is the parser object, `HtmlEvents.dfy` what it computes, `HtmlOrder.dfy` what every stream keeps,
  `HtmlHeard.dfy` what text reaches the captures, `HtmlText.dfy` what becomes of it in the book.
- **The game-graph check and copy** (`acs/book_game_content.py`), on any object graph, cyclic or shared.
- **The EPUB archive index** (`acs/book_epub_import.py`): a trie over case-folded names, and the layout of local records.
- **The durable reading cursor** (`acs/bookreader.py`, `acs/book_index.py`): keys, snapshots, return points, heading paths.

Where the code does not meet the plain law, the project gives a concrete input and then the exact condition:

- `san` raises on a legal move exactly when the move takes the king, or gives check in a position too long to clone
  (`Limits.SanCanFail`, `SanRoundTrip.SanFailsExactly`). `set_fen` accepts positions with the side not to move in check, so
  this can happen; it cannot along runs from a position where the side not to move is safe.
- FEN text longer than `MAX_FEN_CHARS` is printed but not read. Redo towards such a position raises after the stacks have
  moved, and leaves a false history (`Limits.RedoCanBreakTheLine`); this is the only way the chain breaks, in runs of any
  length (`Timeline.RunOnLineExactly`).
- A five-field FEN can be accepted although its own printed form is too long (`Limits.FiveFieldsCanOverflow`); a six-field
  one cannot (`Limits.SixFieldsNormalise`).
- A second `close` that races with the first returns while the engine may still be in use
  (`Analysis.SecondCloseReturnsEarly`); when the engine is really gone is `Analysis.CloseTakesEffect`.
- The importer's "boundary is invalid" error can be reached: a `title` opened inside running text is recorded where it began,
  even behind an image shown inside it (`HtmlOrder.TitleCanBreakOrder`). A document raises the error exactly when an event, or
  its end, closes a capture that must weave events out of order (`HtmlOrder.DocumentFailsExactly`). Documents whose titles open
  outside running text never do (`HtmlOrder.NoBoundaryError`), so neither do those whose titles all come first
  (`HtmlOrder.TitlesFirstAreSafe`).
- The importer drops the items of a nested list because the item around it has read their text too. Where there is no item
  around it they can be lost (`HtmlText.NestedItemsLost`); nothing else is (`HtmlText.DocumentConserves`).

## Model

| member | source | states |
|---|---|---|
| Squares.ParseName | acs/squares.py:11-37 | reading the name of a square gives the square back |
| Squares.NameParsed | acs/squares.py:11-37 | every text parse_square accepts is, stripped and lower-cased, the name of the square it returns |
| Squares.NameInjective | acs/squares.py:11-16 | different squares have different names |
| Pieces.OpenSymmetric | acs/chesscore.py:162-169 | a line is open from one end exactly when it is open from the other, which is why rays may be reversed |
| Pieces.OnlyKing | acs/chesscore.py:89-141 | with one king of a colour the first one found is the only one |
| Sight.StepTargets | acs/chesscore.py:368-371 | the targets of a step table are exactly the squares one listed step away, once each |
| Sight.RaySquares | acs/chesscore.py:372-381 | walking a ray collects exactly the squares on it up to and including the first man |
| Sight.LineTargets | acs/chesscore.py:372-381 | several rays collect exactly the squares on an open line in one of the directions |
| Sight.ReachIsStrike | acs/chesscore.py:352-388 | the tables and rays walked from a man's own square give exactly the squares it strikes |
| Sight.SeenFromIsStrike | acs/chesscore.py:142-170 | the tables and rays walked back from the target, with pawn steps and rays reversed, give exactly the same relation |
| MoveLaws.StrikesExactly | acs/chesscore.py:142-170 | how each man strikes, told by squared distances and by the squares between, without the step tables |
| MoveLaws.OpenExactly | acs/chesscore.py:162-169 | a line is open exactly when every square that lies between its ends is empty |
| BoardClass.Board.Attacked | acs/chesscore.py:142-170 | true exactly when some man of that side strikes the square |
| BoardClass.Board.AttacksFrom | acs/chesscore.py:352-388 | exactly the squares the man strikes, ascending, none for an empty square |
| BoardClass.Board.AttackersOf | acs/chesscore.py:389-391 | exactly the squares of men that strike the target, ascending; one of them has a given colour exactly when `attacked` says so |
| BoardClass.Board.InCheckOf | acs/chesscore.py:171-173 | whether the king is struck, an error for a side without a king |
| BoardClass.Board.PawnAdvances | acs/chesscore.py:179-190 | exactly the single and double steps, four promotions on the last rank, each move once |
| BoardClass.Board.PawnCaptures | acs/chesscore.py:191-199 | exactly the captures and en-passant captures of a pawn, each once |
| BoardClass.Board.CastlingMoves | acs/chesscore.py:227-233 | exactly the castling moves whose right, rook, empty squares and unattacked king path hold |
| BoardClass.Board.MovesFrom | acs/chesscore.py:177-233 | exactly the pseudo-legal moves from one square, each once |
| BoardClass.Board.PseudoMoves | acs/chesscore.py:174-233 | exactly the pseudo-legal moves of a side, each once, by ascending origin |
| BoardClass.Board.LegalMoves | acs/chesscore.py:234-240 | exactly the pseudo-legal moves after which the mover's king is not struck, each once; it fails exactly when a clone is needed and the text is over the limit |
| BoardClass.Board.ApplyMove | acs/chesscore.py:241-264 | the in-place update of every field equals the move on positions and touches neither stack |
| Rules.AppliedCell | acs/chesscore.py:244-253 | after any pseudo-legal move each of the 64 squares holds what the move put there or what it held before, including en passant and the castled rook |
| Rules.CastlingByWing | acs/chesscore.py:227-233 | a move is a castling move exactly when it is the one of its side's wing and that wing may castle |
| MoveLaws.CastlingExactly | acs/chesscore.py:227-233 | the castling moves are exactly those to the g-file or c-file of the home rank with king and rook at home, the right held, every square between them empty and no square from the king's origin to its target attacked |
| MoveLaws.CastledBoard | acs/chesscore.py:244-253 | after castling king and rook stand on their targets, their homes are empty and nothing else has moved |
| MoveLaws.CapturesAreStrikes | acs/chesscore.py:174-233 | a man can take exactly the enemies it strikes |
| MoveLaws.PawnsGoAhead | acs/chesscore.py:179-190 | without capturing a pawn goes exactly along an open file, one rank, or two from where it started |
| MoveLaws.PromotionIsFree | acs/chesscore.py:179-199 | a pawn promotes exactly on its last rank, to any officer its side likes |
| Closure.CaptureIsStrike | acs/chesscore.py:174-233 | a pseudo-legal capture lands on a square its man strikes |
| Closure.NoKingCapture | acs/chesscore.py:174-240 | where the side not to move is not struck, no pseudo-legal move takes its king |
| Closure.UncheckedKingsApart | acs/chesscore.py:107 | with one king each and the mover's king unstruck the kings are not adjacent |
| Closure.RightsAfterSupported | acs/chesscore.py:254-259 | rights left after a move still match king and rook on their home squares |
| Closure.EnPassantAfter | acs/chesscore.py:111-261 | the en-passant square left after a move passes every check `set_fen` makes of one |
| Closure.LegalMoveKeepsRules | acs/chesscore.py:104-264 | a legal move that does not take the king leads to a position that passes all structural rules, with the other side's opponent unstruck |
| Closure.SafeMoveKeepsRules | acs/chesscore.py:174-264 | where the side not to move is not struck, every legal move keeps all structural rules and that safety |
| Closure.NullMoveKeepsRules | acs/chesscore.py:315-330 | a null move keeps all structural rules |
| Closure.GamesStaySafe | acs/chesscore.py:234-264 | along every run of legal moves from a safe valid position all rules hold and the side not to move is never struck |
| Course.EnPassantExactly | acs/chesscore.py:191-261 | the captures in passing after a move are exactly those of the pawns beside a pawn that has just gone two ranks, to the square it passed; after any other move there are none |
| Course.PassedPawnFalls | acs/chesscore.py:191-253 | each of them takes the pawn that went by |
| Course.MenAfter | acs/chesscore.py:241-253 | a capture leaves one man fewer, any other move as many |
| Course.RightsHistory | acs/chesscore.py:254-330 | along every course of moves and null moves a right is held at the end exactly when it was held before and king and rook have stood at home all along |
| Course.ClockCounts | acs/chesscore.py:260-330 | the halfmove clock counts the plies since a pawn last moved or a man last fell |
| Course.MovesNumbered | acs/chesscore.py:260-330 | sides alternate and the move number rises by one with every ply of Black |
| Course.PushesArePlies | acs/chesscore.py:309-330 | what push and push_null lead to is a ply of such a course |
| Course.GamesAreCourses | acs/chesscore.py:234-264 | so is every game of legal moves from a safe position |
| Fen.ReadPlacementText | acs/chesscore.py:73-138 | reading the printed placement restores all 64 squares |
| Fen.ReadFieldsOfFen | acs/chesscore.py:71-138 | reading the six printed fields restores board, turn, rights, en passant and both counters |
| Fen.FenRoundTrip | acs/chesscore.py:58-138 | the printed text of a valid position reads back as exactly that position if and only if it is within the length limit |
| Fen.FenInjective | acs/chesscore.py:126-138 | different valid positions print differently |
| FenMeaning.FenReadsExactly | acs/chesscore.py:58-125 | set_fen accepts exactly the texts within the limit whose fields say a valid position, and reads that position |
| FenMeaning.PlacementReadsExactly | acs/chesscore.py:73-88 | the placement field is read exactly as it is drawn: eighth rank first, a-file first, a digit for so many empty squares |
| FenMeaning.MenLetters | acs/chesscore.py:73-138 | the letters of the men, capitals for White |
| MoveLaws.ValidExactly | acs/chesscore.py:89-120 | the structural rules in the words of the game: one king each and apart, pawns between the home ranks, rights with king and rook at home, an en-passant square some double step can have left |
| Text.WordsOfSpaced | acs/chesscore.py:71 | splitting space-joined plain fields gives the fields back |
| Text.SplitOfJoin | acs/chesscore.py:73-138 | splitting slash-joined ranks gives the ranks back |
| Text.NumberOfDecimal | acs/chesscore.py:95-138 | reading a printed counter gives the counter back |
| BoardClass.Board.Fen | acs/chesscore.py:126-138 | the loop over ranks and files prints the text of the position |
| BoardClass.Board.PlaceRank | acs/chesscore.py:76-88 | reads one rank text into the board or rejects it, and leaves other ranks alone |
| BoardClass.Board.ReadBoard | acs/chesscore.py:73-88 | accepts exactly the eight-rank texts of 64 squares and reads them |
| BoardClass.Board.Accepts | acs/chesscore.py:89-120 | the structural checks pass exactly on the valid positions |
| BoardClass.Board.ReadText | acs/chesscore.py:65-120 | all checks of `set_fen` before its commit, accepting and rejecting exactly as stated |
| BoardClass.Board.SetFen | acs/chesscore.py:58-125 | every field is replaced, or a rejected text changes no field and no stack; the stacks are kept or cleared as asked |
| BoardClass.Board.Clone | acs/chesscore.py:56-57 | a fresh board with the same position, except that it fails exactly on text over the limit |
| BoardClass.Board.Create | acs/chesscore.py:52-55 | a new board holds the position of an accepted text and empty stacks, or is not made |
| Limits.PlacementShortest | acs/chesscore.py:73-138 | printing an accepted placement never makes it longer |
| Limits.SixFieldsNormalise | acs/chesscore.py:58-138 | an accepted six-field text prints no longer than it was and reads back as the same position: split digit runs and leading zeros normalise |
| Limits.FiveFieldsCanOverflow | acs/chesscore.py:67-138 | a concrete accepted five-field text whose printed form is over the limit |
| Notation.OriginTells | acs/chesscore.py:275-280 | against every rival the printed file, rank or square is one the rival does not share |
| Notation.PawnsTold | acs/chesscore.py:281-283 | pawn moves with the same file prefix, capture mark, target and promotion are the same move |
| Notation.PiecesTold | acs/chesscore.py:275-283 | piece moves of one kind to one square with the same disambiguation are the same move |
| Notation.CastlingTold | acs/chesscore.py:271 | castling text is shared with no other pseudo-legal move |
| Notation.CoreInjective | acs/chesscore.py:265-286 | in any position no two legal moves have the same SAN without its check suffix |
| BoardClass.Board.Rivals | acs/chesscore.py:276 | exactly the other legal moves of the same kind of man to the same square |
| BoardClass.Board.OriginText | acs/chesscore.py:275-280 | prints nothing, the file, the rank or the square as the rivals require |
| BoardClass.Board.CoreText | acs/chesscore.py:270-283 | prints the SAN of a legal move up to its check suffix |
| BoardClass.Board.CheckMark | acs/chesscore.py:284-285 | '+' or '#' exactly for check with or without a legal reply |
| BoardClass.Board.PrintSan | acs/chesscore.py:265-286 | the method prints what San denotes, and raises exactly where San is undefined |
| SanRoundTrip.BareOfPrinted | acs/chesscore.py:287-304 | normalising printed SAN changes nothing, and trimming check marks leaves exactly the part before the suffix |
| SanRoundTrip.PrintedNotCoordinate | acs/chesscore.py:296 | printed SAN never takes the coordinate branch |
| SanRoundTrip.CoordinateRoundTrip | acs/chesscore.py:296-300 | a legal move is recovered from its coordinate text |
| SanRoundTrip.MatchIsUnique | acs/chesscore.py:301-308 | the ambiguity error is unreachable |
| SanRoundTrip.ReadsEverySpelling | acs/chesscore.py:292-308 | any text that normalises to a legal move's SAN is read as that move |
| SanRoundTrip.UnmatchedIsRefused | acs/chesscore.py:301-308 | text that matches no legal move is refused |
| SanRoundTrip.ReadsOnlyItsOwn | acs/chesscore.py:292-308 | whatever is read is legal, and its coordinates or its SAN are what the text says |
| SanRoundTrip.SanRoundTrip | acs/chesscore.py:265-308 | parsing printed SAN gives the move back wherever `san` succeeds on every legal move |
| SanRoundTrip.SanRoundTripExactly | acs/chesscore.py:265-308 | every legal move prints and reads back if and only if `san` succeeds on all of them |
| SanRoundTrip.SanFailsExactly | acs/chesscore.py:265-286 | `san` fails on a legal move exactly when the move takes the king, or gives check in a position too long to list replies in |
| SanRoundTrip.KingGoneExactly | acs/chesscore.py:139-285 | after a pseudo-legal move the opponent has no king exactly when the move took it |
| SanRoundTrip.SafeMovePrints | acs/chesscore.py:265-286 | where the side not to move is not struck, and with room for the counters, `san` succeeds on every legal move |
| SanRoundTrip.SafePositionsRoundTrip | acs/chesscore.py:265-308 | where the side not to move is not struck, every legal move prints and reads back as itself |
| SanMeaning.PrintedMeans | acs/chesscore.py:265-286 | what the text of any move but castling says of the boards: x exactly when a man falls, as last square the one where the mover newly stands, after = the man found there, + and # exactly for check and mate, and first the letter of the man that moves and the least that tells it from its rivals |
| SanMeaning.CastlingPrints | acs/chesscore.py:271-285 | castling prints as O-O exactly towards the g-file and O-O-O towards the c-file |
| SanMeaning.CastlingReads | acs/chesscore.py:287-308 | O-O is read as the legal castling move to the g-file and nothing else, O-O-O as that to the c-file |
| SanMeaning.SpellingsRead | acs/chesscore.py:287-308 | printed text is read back with zeros for O, long dashes, blanks anywhere and annotation marks behind |
| Limits.SanCanFail | acs/chesscore.py:234-303 | a concrete accepted position where a legal move takes the king, `san` raises, and so every SAN text is refused |
| BoardClass.Board.ReadCoordinates | acs/chesscore.py:297-300 | finds the named legal move, or there is none |
| BoardClass.Board.Matching | acs/chesscore.py:301-305 | keeps exactly the legal moves whose bare SAN is the target |
| BoardClass.Board.ParseByCandidates | acs/chesscore.py:306-308 | at most one candidate exists, and choosing it is what reading denotes |
| BoardClass.Board.ReadMove | acs/chesscore.py:292-308 | the method reads what ParseMove denotes, in both branches and in every failure |
| Timeline.RunKeepsRules | acs/chesscore.py:58-125 | every run of push, push_null, push_text, undo, redo and set_fen from a valid position keeps all structural rules |
| Timeline.StepKeepsLine | acs/chesscore.py:309-342 | undo stack, current text and reversed redo stack stay one chain of single moves after an operation, exactly unless it is an undo or redo towards text over the limit |
| Timeline.UndoMovesCursor | acs/chesscore.py:337-339 | undo moves one step back along an unchanged chain; towards overlong text it breaks the chain |
| Timeline.RedoMovesCursor | acs/chesscore.py:340-342 | redo moves one step ahead along an unchanged chain; towards overlong text it breaks the chain |
| Timeline.RunOnLineExactly | acs/chesscore.py:309-342 | a run of any length stays on one chain throughout exactly when none of its operations is an undo or redo towards text over the limit |
| Timeline.UndoRedo | acs/chesscore.py:337-342 | undo then redo restores position and both stacks |
| Timeline.RedoUndo | acs/chesscore.py:337-342 | redo then undo restores position and both stacks |
| Timeline.PushThenUndo | acs/chesscore.py:309-339 | undo takes back a push: old position and undo stack, the move ready to redo |
| Timeline.RunStaysOnLine | acs/chesscore.py:309-342 | no run gets stuck while the starting counters plus one per operation leave room for the text, loads being within the same counters |
| Timeline.RunsFromLoad | acs/chesscore.py:58-125 | the same from any accepted text |
| Timeline.LoadedRunsExactly | acs/chesscore.py:58-125 | so does every run from any accepted text |
| Limits.RedoCanBreakTheLine | acs/chesscore.py:340-342 | a concrete valid position at the limit where a null move, undo and redo lose the redo entry and leave a false undo entry |
| BoardClass.Board.Push | acs/chesscore.py:309-314 | the whole session becomes that of Push; a refused push changes no field and no stack |
| BoardClass.Board.PushNull | acs/chesscore.py:315-330 | the whole session becomes that of PushNull |
| BoardClass.Board.PushText | acs/chesscore.py:331-336 | the whole session becomes that of PushText |
| BoardClass.Board.Undo | acs/chesscore.py:337-339 | the whole session becomes that of Undo |
| BoardClass.Board.Redo | acs/chesscore.py:340-342 | the whole session becomes that of Redo |
| Decoder.PicksOne | acs/chessbase_decoder.py:411-440 | at most one legal move matches a token's squares and promotion code |
| Decoder.DecodeShape | acs/chessbase_decoder.py:455-578 | a run at the start of a variation adds a move, other runs add no siblings, and the root run uses every token |
| Decoder.EmitDecodes | acs/chessbase_decoder.py:455-578 | decoding a canonical stream rebuilds exactly its tree and stops at the end of its run, in any mode and at any depth |
| Decoder.AlternativesDecode | acs/chessbase_decoder.py:499-566 | the wrapped alternatives of one move come back in order, the first as the line and the others as siblings |
| Decoder.DecoderInvertsGrammar | acs/chessbase_decoder.py:455-578 | every tree the grammar covers is decoded from its stream exactly, with or without the terminal pop |
| Decoder.SkipsSayNothing | acs/chessbase_decoder.py:481-498 | a stream decodes to what it does without its skips, except that none may follow the terminal pop |
| Decoder.EmptyGameExactly | acs/chessbase_decoder.py:477-498 | the only streams of a game without moves are those of skips alone |
| Decoder.MarkersTell | acs/chessbase_decoder.py:408-440 | which man stands on the target after each promotion marker |
| DecodedTrees.Explained | acs/chessbase_decoder.py:455-578 | every successful run yields a tree of playable plies in canonical shape within the nesting limit |
| DecodedTrees.DecodedGamesAreCanonical | acs/chessbase_decoder.py:455-578 | every decoded game is one the grammar covers, so decoding its canonical stream gives it again |
| DecodedTrees.DecodedGamesPlayLegally | acs/chessbase_decoder.py:455-578 | every line of a decoded game is played legally, each variation from the position before its owner |
| DecodedTrees.Conserved | acs/chessbase_decoder.py:455-578 | in every run nodes equal move tokens, variation lines equal push tokens, and pops equal pushes plus the one that ends the run |
| DecodedTrees.GameConserved | acs/chessbase_decoder.py:455-578 | for a whole game: nodes equal move tokens, variations equal pushes, pops equal pushes plus at most one terminal pop |
| DecoderClass.InsideLine | acs/chessbase_decoder.py:537-566 | after an alternative the cursor's line is the continuation with one more batch of variations on its first move |
| DecoderClass.StartSiblings | acs/chessbase_decoder.py:537-544 | a branch at the start of a variation is added to the owner's variations, after those its continuation added |
| DecoderClass.PushGrewInside | acs/chessbase_decoder.py:499-566 | what a push inside a line does to the whole graph of lines, and that nothing else changes |
| DecoderClass.PushGrewStart | acs/chessbase_decoder.py:499-566 | what a push at the start of a variation does to the graph, and that nothing else changes |
| DecoderClass.LineDecoder.Candidates | acs/chessbase_decoder.py:417-436 | keeps exactly the legal moves a token may stand for |
| DecoderClass.LineDecoder.PlayToken | acs/chessbase_decoder.py:411-440 | plays the token on the cursor's board or fails, exactly as DecodeMove says |
| DecoderClass.LineDecoder.TakeMove | acs/chessbase_decoder.py:555-566 | adds one node at the cursor; the offset always equals the length of the line, so the overwrite error has no branch |
| DecoderClass.LineDecoder.Continue | acs/chessbase_decoder.py:499-549 | runs the continuation on the shared cursor, restores it and opens the alternative's line |
| DecoderClass.LineDecoder.DecodeLine | acs/chessbase_decoder.py:455-578 | the loop over the mutable cursor grows the graph by exactly the segment Decode gives, fails exactly when Decode does, and counts every token once |
| DecoderClass.LineDecoder.Run | acs/chessbase_decoder.py:687-702 | the root line holds exactly the decoded game and every token was used |
| Analysis.StepInv | acs/analysis_service.py:339-398 | every step of every thread keeps the joint invariant of generation, locks, engine and answers |
| Analysis.NoStaleLines | acs/analysis_service.py:339-378 | an answer with lines was judged while its own begin was the last generation taken by any analyze, invalidate or close |
| Analysis.StaleExactly | acs/analysis_service.py:214-216 | a result is stale exactly when a later generation was taken; comparing positions decides nothing more |
| Analysis.AnswersReport | acs/analysis_service.py:339-378 | in every reachable state the answer to an analysis whose provider answered is stale exactly when a later event took a generation, and otherwise has exactly the lines delivered, or is failed when the call raised; without such a call it was refused after a close |
| Analysis.UndisturbedAnalysis | acs/analysis_service.py:339-378 | an analysis still the last to have begun when it judges gets exactly the lines its provider delivered |
| Analysis.StepTold | acs/analysis_service.py:339-378 | every step keeps each generation to one call and each answer to the call of its generation |
| Analysis.ProviderCallsExclusive | acs/analysis_service.py:339-398 | at most one thread is inside the factory, a provider analyze or the shutdown |
| Analysis.EngineClosedAtMostOnce | acs/analysis_service.py:339-398 | at most one engine is ever stored, and it is closed at most once and only if owned |
| Analysis.NoResurrection | acs/analysis_service.py:339-398 | once the closing thread has taken the engine, no later schedule holds, makes or calls one |
| Analysis.CloseTakesEffect | acs/analysis_service.py:380-398 | a closed service's engine is gone exactly when the thread that closed it is past taking it |
| Analysis.SecondCloseReturnsEarly | acs/analysis_service.py:380-385 | a concrete schedule where a second close returns while the engine is held and in use |
| Analysis.NoDeadlock | acs/analysis_service.py:339-398 | while a thread is inside an operation some such thread can take a step |
| Progress.EncodeDecodes | acs/book_progress_store.py:828-850 | bytes this version writes decode to what was written |
| Progress.WriteKeepsOrder | acs/book_progress_store.py:1791-1937 | a write of the next generation keeps the order of the two files wherever it stops |
| Progress.RunKeepsOrder | acs/book_progress_store.py:1791-1986 | in every run of saves, removes and recoveries, stopped anywhere, with either file lost or damaged at any time, a decodable backup is older, identical or both files are version 1 |
| Progress.NeverDivergent | acs/book_progress_store.py:1837-1878 | from an empty or version-1 store the newer-or-divergent refusal never fires |
| Progress.OrphanBackupKept | acs/book_progress_store.py:974-1048 | save and remove change nothing while a backup exists without a primary |
| Progress.WriteIsAtomic | acs/book_progress_store.py:1791-1937 | wherever a write stops, the primary is its old bytes or the complete new ones |
| Progress.StepIsAtomic | acs/book_progress_store.py:1950-1986 | an operation that published changed exactly its own book; one that did not left every entry and the primary's bytes alone |
| Progress.OtherBooksKept | acs/book_progress_store.py:1950-1986 | entries of every other book are untouched |
| Progress.RunIsSequential | acs/book_progress_store.py:1950-1986 | a run is the fold of the map updates of the operations that published |
| Progress.CompletesExactly | acs/book_progress_store.py:2125-2311 | between cooperating writers a save, remove or recovery completes exactly when it does not stop and the store is readable and within its limits, or lost with a backup that decodes |
| Progress.RunsComplete | acs/book_progress_store.py:1791-1986 | so in every run from a starting store: nothing a stopped writer leaves ever stands in the way |
| Progress.RunOneBehind | acs/book_progress_store.py:2156-2311 | with both files valid, the backup always holds the current entries or those before the last change |
| Progress.RecoveryLosesAtMostOneUpdate | acs/book_progress_store.py:2156-2311 | after losing the primary, recovery restores the entries as they were or as before the last change |
| ProgressStore.Store.Unchanged | acs/book_progress_store.py:892-972 | passes only if bytes and inode were both observed as expected |
| ProgressStore.Store.Confirm | acs/book_progress_store.py:1700-1767 | passes only after observing the target's inode, bytes and inode again, then the guard's bytes and inode |
| ProgressStore.Store.Prepare | acs/book_progress_store.py:1589-1612 | the temporary file has a new inode and exactly the encoded bytes when it is synced |
| ProgressStore.Store.Publish | acs/book_progress_store.py:1429-1777 | with arbitrary outside changes between steps: confirmed exactly through the stated sequence of looks, in which the one replace follows the one prepared file and the target is then seen to name that very inode, with exactly the encoded bytes, and the guard as expected; a failure before replaced nothing; alone and without a failing step it is confirmed whenever target, guard and backup are as expected |
| ProgressStore.ConfirmedOnce | acs/book_progress_store.py:1591-1767 | in a confirmed sequence one file is made and synced before the one replace, and its inode is seen at the target before and after its bytes |
| ProgressStore.ConfirmedTells | acs/book_progress_store.py:1591-1767 | a confirmed sequence tells one story, in order: the file made and synced, its path, guard and target as they must be, the one replace, the target seen to be that very file before and after its bytes, the guard still there |
| ProgressStore.Store.WritePayload | acs/book_progress_store.py:1791-1937 | completed only through the stated sequence of checks and replaces, each confirmed by the inode its own step prepared; alone, it does what Write says for some stopping point |
| ProgressStore.Store.FirstWrite | acs/book_progress_store.py:1801-1836 | a first write publishes only the primary, guarded by an absent backup, and is confirmed by the inode it prepared |
| ProgressStore.Store.RollingWrite | acs/book_progress_store.py:1837-1937 | a rolling write publishes the old primary's bytes as backup under the first inode it prepares, then the primary under the second, guarded by exactly that backup and inode |
| ProgressStore.Store.LoadState | acs/book_progress_store.py:974-1048 | what was loaded decodes, nothing was replaced, and alone it is what Load says; without a failing step it is Load's answer in every case |
| ProgressStore.Store.SaveEntry | acs/book_progress_store.py:1950-1986 | with outside changes too, a save says published exactly when it replaced the primary, and completed only after confirming the entry put into the entries of the very bytes it read, one generation on; alone, it does what Save says for some stopping point, and when no step fails it ends exactly as Save does unstopped |
| ProgressStore.Store.RemoveEntry | acs/book_progress_store.py:2125-2154 | with outside changes too, a remove says published exactly when it replaced the primary, and completed only after confirming the entry taken out of the entries of the very bytes it read, one generation on; alone, it does what Remove says for some stopping point, and when no step fails it ends exactly as Remove does unstopped |
| ProgressStore.Store.RecoverFromBackup | acs/book_progress_store.py:2156-2311 | with outside changes too, recovery never replaces the backup, says published exactly when it replaced the primary, and completed only after confirming the bytes of a backup it had read and decoded over a primary it had seen absent or corrupt; alone, it does what Recover says for some stopping point, and when no step fails it ends exactly as Recover does unstopped |
| ProgressStore.SaveTells | acs/book_progress_store.py:1791-1986 | a completed save read, decoded and rechecked the primary, then published its entries with this one set: over nothing and without a backup beside it, or first the old bytes as backup and then the payload under exactly that backup |
| ProgressStore.RemoveTells | acs/book_progress_store.py:1791-1937 | a completed remove likewise, of the entries without this one |
| ProgressStore.RecoveryTells | acs/book_progress_store.py:2156-2311 | a completed recovery read a backup that decodes and published it over a primary seen absent or corrupt, under that backup |
| Archive.FoldedPrefix | acs/book_epub_import.py:795-821 | folding a path part by part agrees with folding its prefixes |
| Archive.Boundaries | acs/book_epub_import.py:741-757 | gives every entry the next header or the central directory as boundary, and refuses exactly equal or late starts |
| Archive.DisjointByNeighbours | acs/book_epub_import.py:760-769 | ending before the next header everywhere is the same as no two local records overlapping |
| Archive.FoldsLikeChild | acs/book_epub_import.py:800-813 | a trie node whose path folds like the one below a node hangs on that node's edge |
| Archive.KnownAlike | acs/book_epub_import.py:800-813 | paths in the trie that fold alike are one node, so they are spelled alike |
| Archive.SpellingClash | acs/book_epub_import.py:807-813 | a refused spelling clashes with an entry seen before |
| Archive.FileClash | acs/book_epub_import.py:795-819 | a path through or onto a regular file clashes with that file's entry |
| Archive.DirectoryClash | acs/book_epub_import.py:831-838 | a file on a path that is a directory clashes with an entry below it |
| Archive.NoClash | acs/book_epub_import.py:792-838 | an entry that passes every trie check is compatible with every entry before it |
| Archive.EntryJoins | acs/book_epub_import.py:823-838 | after an entry the trie holds exactly the prefixes, directories and files of the entries seen |
| Archive.AddPath | acs/book_epub_import.py:792-821 | the inner loop adds exactly the missing nodes or names a clash |
| Archive.ArchiveIndex | acs/book_epub_import.py:727-879 | one pass accepts exactly the archives whose entries agree pairwise in name, spelling and kind, whose records never overlap, and whose sizes and `mimetype` entry fit; the index holds exactly the regular files |
| Archive.FoldedNamesDiffer | acs/book_epub_import.py:785-813 | in an accepted archive no two whole paths fold alike |
| Archive.NamesAgreeExactly | acs/book_epub_import.py:785-838 | what agreement means for names as written: two that begin with parts folding alike begin alike, and if all of one name's parts do, it is shorter and names a directory |
| Archive.SpellingIsSplit | acs/book_epub_import.py:792 | the parts of a name are exactly those between its slashes |
| GameGraph.ReachedIsVisited | acs/book_game_content.py:316-408 | whatever a path reaches from an accepted line was met by the check and is of the right class |
| GameGraph.VisitedIsReached | acs/book_game_content.py:316-408 | whatever the check meets is reached by a path |
| GameGraph.VisitDefined | acs/book_game_content.py:316-408 | the traversal is never refused exactly when every object reached is of the right class and not too deep |
| GameGraph.DistinctIsTree | acs/book_game_content.py:272-284 | a traversal without repeats meets every object along one path only |
| GameGraph.TreeIsDistinct | acs/book_game_content.py:272-284 | a tree is traversed without repeats |
| GameGraph.AcceptsExactlyTrees | acs/book_game_content.py:272-418 | the check accepts exactly the graphs that are trees of the right classes within the depth and node limits, whatever cycles or sharing the input has |
| GameGraph.GraphCheck.Claim | acs/book_game_content.py:276-284 | refuses exactly an object met before or one over the limit |
| GameGraph.GraphCheck.CheckComments | acs/book_game_content.py:309-314 | passes exactly lists of comments; comment objects may be shared |
| GameGraph.GraphCheck.CheckLine | acs/book_game_content.py:316-416 | passes exactly when the objects met below the line follow those met before without a repeat; it ends on every graph |
| GameGraph.GraphCheck.CheckMove | acs/book_game_content.py:355-403 | the same for one move and its variations |
| GameGraph.CheckGame | acs/book_game_content.py:418 | the whole check from the game's line |
| GameGraph.Framed | acs/book_game_content.py:439-460 | making more objects changes nothing that was read out of the heap before |
| GameGraph.SameAlongPaths | acs/book_game_content.py:439-460 | in equal graphs the same paths lead to lines and moves with the same fields and comments |
| GameGraph.Store.DetachedComments | acs/book_game_content.py:439-441 | a new list of new comments with the same texts and styles |
| GameGraph.Store.DetachedMove | acs/book_game_content.py:443-451 | a copy of the move equal but for object identity, every line, move, comment and list of it new and used once |
| GameGraph.Store.DetachedLine | acs/book_game_content.py:454-460 | the same for a line |
| GameGraph.Store.CanonicalCopy | acs/book_game_content.py:463-489 | accepted graphs are copied: along every path the copy has an object with the same fields and comments, made of new objects only and sharing none; the others are refused and nothing is made |
| Reader.KeyTells | acs/book_index.py:110-128 | two blocks have equal keys exactly when they are the same block by id, else by anchor, else by position |
| Reader.ResolveNames | acs/book_index.py:209-236 | a key resolves exactly when one block and no other has it |
| Reader.TakeExactly | acs/bookreader.py:501-534 | progress can be saved exactly when the block at the cursor and every return point has a fit key that names it alone |
| Reader.TakeThenRestore | acs/bookreader.py:501-534 | restoring a snapshot into the unchanged book gives the same block and the same return points |
| Reader.KeyFinds | acs/bookreader.py:736-783 | a saved key names a block of another revision exactly when that block is the one saved |
| Reader.RestoreExactly | acs/bookreader.py:736-783 | restoring into any revision succeeds exactly when every block saved is found in it, uniquely, and unchanged if it was saved by position only |
| Reader.RestoreFinds | acs/bookreader.py:736-783 | the restored reader stands on the block it stood on and its return points name the blocks they named |
| Reader.BookReader.GoTo | acs/bookreader.py:334-352 | the cursor moves, or after an edit of the document stays where it was |
| Reader.BookReader.NextMatching | acs/bookreader.py:370-378 | moves to the nearest block of the family in that direction, or leaves the cursor alone when there is none |
| Reader.BookReader.Scan | acs/bookreader.py:398-418 | each flag is set exactly when a block of the family lies in that direction |
| Reader.BookReader.Availability | acs/bookreader.py:380-420 | each flag says whether the move of its name would find a block |
| Reader.BookReader.SaveReturnPoint | acs/bookreader.py:444-468 | binds the name to the current block's key, or rolls back to the former points |
| Reader.BookReader.RestoreReturnPoint | acs/bookreader.py:494-499 | moves to the one block the saved key names, or leaves the cursor alone |
| Reader.BookReader.TakeSnapshot | acs/bookreader.py:501-534 | the checking and digesting loops return what Take says of the cursor, or fail after an edit |
| Reader.BookReader.ValidPoints | acs/bookreader.py:510-518 | the loop finds every return point well named and resolved by exactly one block |
| Reader.BookReader.Digests | acs/bookreader.py:520-527 | the loop collects the blocks of exactly the keys that name by position |
| Reader.RestoreSnapshot | acs/bookreader.py:736-783 | a new reader where Restore says, or none |
| Reader.GovernorsNest | acs/book_index.py:168-181 | of two headings that govern a block the deeper one comes later in the book |
| Reader.HeadingPaths | acs/book_index.py:168-181 | the array of levels yields for every block the texts of exactly the headings that still govern it |
| HtmlEvents.WordsSnoc | acs/book_html_import.py:208-210 | how one more character changes the words of a text |
| HtmlEvents.AlikeContinued | acs/book_html_import.py:208-210 | texts that compact alike and end alike still do after the same continuation |
| HtmlEvents.LazyCompacts | acs/book_html_import.py:290-298 | a capture's parts compact as if each boundary had been appended at once |
| HtmlOrder.InOrderSnoc | acs/book_html_import.py:493-504 | one more event keeps a capture's events in order exactly when it begins after the last one has resumed |
| HtmlOrder.AnchorFound | acs/book_html_import.py:323-330 | inserting before a block fails exactly when that block is not published |
| HtmlOrder.InsertGrows | acs/book_html_import.py:315-321 | an insertion keeps every block published before, in order |
| HtmlOrder.WeaveExactly | acs/book_html_import.py:806-858 | with all anchors published the weaving loop raises exactly when the events are out of order, and otherwise only adds blocks |
| HtmlOrder.FinishExactly | acs/book_html_import.py:1042-1149 | closing a capture raises exactly when it must weave events that are out of order |
| HtmlOrder.FinishTopKeeps | acs/book_html_import.py:1151-1192 | closing a capture and recording it on its owner keeps every invariant |
| HtmlOrder.LateExactly | acs/book_html_import.py:1151-1192 | after a closed capture is recorded some capture's events are out of order exactly when it was a title that published something and began before the last of its owner's events resumed |
| HtmlOrder.StepOnward | acs/book_html_import.py:506-804 | every event keeps every invariant and the blocks published before |
| HtmlOrder.EventsStayPlaced | acs/book_html_import.py:478-504 | in every reachable state each event lies within its capture's parts and its block is published, so no anchor is ever lost |
| HtmlOrder.LateBoundariesAgree | acs/book_html_import.py:786-804 | in every reachable state the text of each open capture compacts as if each boundary had been appended to it at once |
| HtmlOrder.BlocksStay | acs/book_html_import.py:307-321 | what follows never loses or reorders a published block |
| HtmlOrder.StepExactly | acs/book_html_import.py:506-858 | an event raises the error exactly when one of the captures it closes must weave events that are out of order |
| HtmlOrder.RunFailsExactly | acs/book_html_import.py:506-858 | a run of events raises it exactly when one of them does |
| HtmlOrder.DocumentFailsExactly | acs/book_html_import.py:506-858 | a whole document raises it exactly when some event, or the end, closes such a capture |
| HtmlOrder.NoBoundaryError | acs/book_html_import.py:824-833 | a document whose titles open outside running text, as in its head, raises no ordering error, nor does its end |
| HtmlOrder.TitlesFirstAreSafe | acs/book_html_import.py:824-833 | in particular one in which every title starts before the first element that takes text |
| HtmlOrder.TitleCanBreakOrder | acs/book_html_import.py:824-833 | a concrete stream with a title inside a list item that does raise it |
| HtmlText.SplitCaptureTells | acs/book_html_import.py:806-1149 | closing a capture that splits publishes exactly the text outside its events: each piece that is not blank becomes one block directly before the block of the event it precedes, the last stands behind all, and their words in order are those of the pieces |
| HtmlText.PlainCaptureTells | acs/book_html_import.py:1042-1149 | a capture that does not split becomes one block of its kind with its text, or an item of its list |
| HtmlText.CaptureConserves | acs/book_html_import.py:1042-1149 | no word is lost or made when a capture closes |
| HtmlText.StepSettles | acs/book_html_import.py:506-804 | with every event the words published or waiting grow by exactly what the captures closed owe and what is shown, less the items of a nested list that ends |
| HtmlText.DocumentConserves | acs/book_html_import.py:506-1219 | a document that imports publishes exactly the words it owes, but for the items of nested lists |
| HtmlText.NestedItemsLost | acs/book_html_import.py:763-782 | a concrete document whose item in a list nested without an item around it is in no block |
| HtmlHeard.OpensExactly | acs/book_html_import.py:652-678 | exactly the readable start of an element that captures text opens a capture, of its kind and empty |
| HtmlHeard.RunHeard | acs/book_html_import.py:786-804 | while a capture is open its letters grow by exactly those of the data that reaches it, in order, whatever else happens |
| HtmlParser.Parser.Insert | acs/book_html_import.py:315-330 | inserts before the first block of that identity, or reports it lost |
| HtmlParser.Parser.NearestOwner | acs/book_html_import.py:472-476 | the topmost capture that is not a title |
| HtmlParser.Parser.HandleData | acs/book_html_import.py:786-804 | the fan-out loop gives every capture its pending boundaries and the text, or titles the text alone |
| HtmlParser.Parser.FinishInline | acs/book_html_import.py:806-858 | the loop over inline events weaves exactly as Weave says |
| HtmlParser.Parser.FinishListItem | acs/book_html_import.py:920-1040 | earlier plain items go before the first rich block, then the item is woven |
| HtmlParser.Parser.FinishOne | acs/book_html_import.py:1042-1149 | closes a capture as FinishCapture says |
| HtmlParser.Parser.FinishTopmost | acs/book_html_import.py:1151-1192 | pops, closes and records the topmost capture as FinishTop says |
| HtmlParser.Parser.FinishAbove | acs/book_html_import.py:736-746 | closes captures from the top down to a depth |
| HtmlParser.Parser.HandleStart | acs/book_html_import.py:506-678 | the state after a start event is that of OnStart |
| HtmlParser.Parser.HandleEnd | acs/book_html_import.py:685-784 | the state after an end event is that of OnEnd |
| HtmlParser.Parser.Emit | acs/book_html_import.py:345-428 | a closed list is published as one block or as bullet paragraphs |
| HtmlParser.Parser.TakeToken | acs/book_html_import.py:506-804 | one event raises the error exactly when it closes a disordered capture; otherwise every invariant is kept and no published block is lost or moved |
| HtmlParser.Parser.Feed | acs/book_html_import.py:506-1219 | feeding a whole document reaches the state the functions say, raises the error exactly when some capture closes disordered, never when titles open outside running text, and otherwise publishes exactly the words the document owes but for nested items dropped |

## Left out

- `Board()` without a FEN argument: the starting position is one accepted text among all others.
- The order of `legal_moves` within one origin square: lists are specified as duplicate-free sets, ascending by origin.
- Error kinds and wording in the chess core: every rejection is one `ValueError`.
- `last_move` in `Timeline`: the board methods state it, the chain of positions does not need it.
- Outside callers of `set_fen(..., clear_history=False)` and modules that write board fields directly.
- `description` texts of squares and pieces.
- Comments, annotation glyphs, tags, error codes and the token total across games in the decoder.
- Object identity of lines in the decoder: a line object is its index in the order of creation, a reference is that index.
- Recursion limits of the interpreter: nesting is bounded by the decoder's own depth limit.
- Normalisation of analysis limits and validation of engine lines; provider callbacks that re-enter the service.
- JSON spelling, UTF-8 and SHA-256 in the progress store: an injective codec, and revisions compare as bytes do.
- The byte-size limit of a progress file, schema errors other than an unsupported version, and text validation of keys.
- Lock files, directory identity and clean-up of temporary files in the progress store: the lock is held throughout.
- ProgressStore.Store.RecoverFromBackup: called without revision arguments, which can only make it refuse earlier.
- Progress.RunKeepsOrder: starts from files this version can read; an unsupported schema is refused by every operation.
- `restore`, `has` and the validated revisions of the progress store: reads that add no new state.
- Error codes of failed steps in `ProgressStore`: several I/O failures share one code.
- Text, lexical and serialized-length budgets of the game-graph check, tags and warnings, and the two serializer calls around
  the copy: the serializer is not part of this model.
- Python lists in `GameGraph` are objects with their own identity; everything else about aliasing follows from references
  being numbers in a heap that only grows.
- Validation of single ZIP headers, names and modes in the EPUB importer, Unicode case folding (a parameter), and the package
  documents: entries arrive with the start and end of their local record.
- Search, labels, positions and metadata of the book index and reader; provisional return points.
- Digests of blocks and documents: a digest stands for the whole value.
- Warnings, resource limits, block identifiers, source anchors, PGN candidates and document metadata of the HTML importer; what
  a failed import leaves behind.
- Markup lexing: the HTML importer takes its stream of start, end and data events as given.
- HtmlParser.Parser.FinishInline: after an error only that it was raised is stated, not the fields it leaves half updated, because the
  import is abandoned.
- Reader.BookReader.SaveReturnPoint: edits of the document are seen only between the reader's own steps.
