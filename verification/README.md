# Raddish web server: a verified model

The server reads an nginx-style configuration, dispatches requests to handlers by location, and
serves among others a CRUD store over files and a clicker game with accounts. This project models
five of its components and proves what they keep.

* **Configuration language** (`ConfigLexer`, `ConfigCharacters`, `ConfigSyntax`, `ConfigLayout`,
  `ConfigMachine`, `ConfigParser`, `ConfigSettings`, `ConfigPositions`, `Decimal`). The lexer is
  proved against a declarative definition of tokens, and its rules are given character by character.
  The parse loop is proved to accept exactly a context-free grammar and to build its syntax tree,
  first as a machine over tokens and then as the program has it: a loop over a mutable stream and a
  stack of references into a growing object graph. Printer and parser undo each other, and the
  printed text is given position by position. The settings extractor is proved to accept and to
  tabulate exactly what the configuration says, in terms of the positions of its words.
* **Dispatching** (`Dispatcher`). The longest-match loop compares a slash-terminated length with a
  raw one, and still finds the one best location in any iteration order.
* **Game protocol** (`GameDatabase`, `GameProtocol`, `GameSafety`, `GameRaces`, `GameHandler`,
  `FreshIds`). Every request is a few database steps with other requests in between. The state
  machine runs any number of requests (the server has two threads), and the results hold for every
  interleaving.
* **CRUD service** (`CrudUrl`, `CrudStore`, `CrudHandler`, `CrudHistory`, `CrudAnswers`,
  `CrudRaces`). The directory of decimal-named files is proved to be a map from entity and id to
  body, the simple form that the repository's own fake store has (tests/crud_handler_test.cc:18-72),
  and the answers over any sequence of requests are those of that map. Creations from two threads
  are treated apart.
* **Clicker economy** (`Prices`, `ClickerWorld`, `Clicker`, `ClickerRules`, `ClickerEconomy`,
  `ClickerSaves`). The events of the script, its duplicated state, its bookkeeping, and the way of a
  game to the server and back. Money is in cents and 1.15 is the fraction 23/20.

The classes `InputStream`, `NginxConfig`, `NginxConfigStatement`, `NginxConfigParser`, `Connection`,
`GameRequestHandler`, `CRUDStore`, `CRUDRequestHandler` and `Game` have the source's fields and loops;
each of their methods is proved against a function of, or a relation on, the old state, and the
theorems are about those functions and relations.

What the code does not do as it may seem to, and what the model follows:

* `parse` pops its root on a surplus closing brace and then goes on. This is the outcome
  `Undefined`, and `UndefinedExactly` says on which inputs it comes.
* The session check before a save binds 16 characters (src/game_request_handler.cc:420) while
  session ids have 32, so the guard at line 452 never refuses (`ProbeNeverRefuses`); the conditions
  in the statements do the guarding. A save without effect is still answered with success and leaves
  upgrade rows without an owner (`SecondSaveIsLost`, `RacingSaves`).
* A login with a wrong password is not refused, and the row it adds belongs to the next free user id
  (`WrongPasswordLogin`). `OnlineAfterLogin` and `LoginTouchesOnlyItsUser` say exactly whom it puts
  online, `WrongPasswordRun` is a run in which it puts another user online, and `LockedOut` says
  that such a user stays locked out as long as no save carries the session id.
* include/crud_store.h:19 promises that a creation never overwrites an id. With two threads it does
  exactly when `CreateOverwritesExactly` says so, and `RacingCreatesCollide` is a run.
* A successful PUT or DELETE is answered with status 200 and the initial body "404 Not Found"
  (src/crud_request_handler.cc:179-186).
* A unique upgrade that is shown as bought cannot be shown so again: index.js:304 throws. A login
  after Charlie was bought therefore takes over the values, does not refresh the almond and lobster
  cards, and is reported as failed. `LoadKeepsGood` says exactly when the cards still agree, and
  `GuestLoginLeavesStaleCard` is a run in which they do not.
* A load takes over only values that are not zero, so what a guest has is left over where the
  account has none: `LoadRestoresExactly` says exactly when a load brings back the saved game, and
  `GuestRadishSurvivesLogin` is a run in which it does not. After a logout it always does
  (`LogoutThenLoginRestores`).

## Model

| member | source | states |
|---|---|---|
| ConfigLexer.LexFrom | src/config_parser.cc:97-173 | a token other than end of input and error strictly shortens the remaining input, although a delimiter is pushed back |
| ConfigLexer.LexIsFirstToken | src/config_parser.cc:97-173 | what the five-state loop returns is the first token of its input in the sense of a declarative definition: skipped space, then a brace, a semicolon, a comment up to its line end, a quoted word, or a bare word up to its delimiter; a bare word cut off by the end is the end, an open quote is an error |
| ConfigLexer.FirstTokenUnique | src/config_parser.cc:97-173 | an input has one first token, so the declarative definition determines kind, text and rest |
| ConfigLexer.WordRelexes | src/config_parser.cc:139-164 | every word, followed by a delimiter if it is bare, lexes to itself and leaves exactly what follows |
| ConfigLexer.RunLexes | src/config_parser.cc:97-173 | one call of the lexer and then a fresh start is one run of a machine without push-back, from any state |
| ConfigLexer.TokensAreRun | src/config_parser.cc:181-190 | the tokens that the parse loop obtains call by call, without comments, are those of one pass over the characters |
| ConfigLexer.TokensShape | src/config_parser.cc:181-253 | every input has finitely many tokens: words of the language, braces and semicolons, then exactly one end or error |
| ConfigLexer.GapsInterchange | src/config_parser.cc:97-190 | any gap (space, tab or newline first, then space and line-ended comments) between tokens may be replaced by any other without changing the token sequence |
| ConfigLexer.FillerInserts | src/config_parser.cc:97-190 | space and line-ended comments may be inserted between two tokens; directly after a bare word a gap may |
| ConfigCharacters.SpaceIsSkipped | src/config_parser.cc:129-133 | a space, a tab, a newline and a carriage return before a token change no token |
| ConfigCharacters.CommentIsSkipped | src/config_parser.cc:115-156 | from a number sign to the next newline or carriage return nothing counts, whatever it is and whatever follows |
| ConfigCharacters.OpenCommentEnds | src/config_parser.cc:151-172 | a comment that nothing ends is the end of the input |
| ConfigCharacters.NothingEnds | src/config_parser.cc:167-172 | an empty input is the end of the input |
| ConfigCharacters.Punctuation | src/config_parser.cc:108-128 | an opening and a closing brace and a semicolon are tokens by themselves, whatever follows |
| ConfigCharacters.BareWord | src/config_parser.cc:134-164 | characters other than space, tab, newline, semicolon and braces, the first of them also no carriage return, number sign or quote, are one word up to the next of those six, which is left for the next token; a later carriage return is part of the word |
| ConfigCharacters.OpenWordEnds | src/config_parser.cc:157-172 | such a word that nothing ends is dropped |
| ConfigCharacters.QuotedWord | src/config_parser.cc:118-150 | from a quote to the next quote of the same kind is one word, quotes included, whatever follows |
| ConfigCharacters.OpenQuoteFails | src/config_parser.cc:167-171 | a quote that nothing ends is an error |
| ConfigSyntax.ReadsPrint | src/config_parser.cc:28-60 | reading a printed configuration, printed at any depth, adds exactly the token stream of the tree and ends between two tokens |
| ConfigSyntax.TokensOfPrint | src/config_parser.cc:28-60 | the lexer undoes the printer: the tokens of the printed tree are those of the tree |
| ConfigLayout.HeadLayout | src/config_parser.cc:37-47 | a printed statement begins with exactly two spaces for each level, and each word stands where the words before it and one space for each of them end |
| ConfigLayout.SimpleLayout | src/config_parser.cc:54-58 | a simple statement is as long as two spaces for each level, its words, one space between them and two characters more, a semicolon and a newline |
| ConfigLayout.BlockLayout | src/config_parser.cc:48-58 | after the words come a space, an opening brace and a newline, then the statements of the block one level deeper, then two spaces for each level of the block's own and a closing brace on a line of its own |
| ConfigLayout.PrintAll | src/config_parser.cc:28-34 | a configuration prints its statements one after the other on one level |
| ConfigLayout.NestedOnce | tests/config_parser_test.cc:169-173 | a block with one statement prints as its line, the statement after two spaces, and the brace at the left margin |
| ConfigMachine.StepKeeps | src/config_parser.cc:181-253 | one turn of the loop keeps: what was read is exactly what the open blocks stand for, only the innermost block has no statement waiting for a child, and the last-token type says what the innermost block ends with |
| ConfigMachine.StepsKeep | src/config_parser.cc:181-253 | the same after every prefix of every token stream |
| ConfigMachine.StepsFlatten | src/config_parser.cc:175-257 | inside any open block, the token stream of a well-formed configuration adds exactly its statements to that block |
| ConfigMachine.GrammarAccepted | src/config_parser.cc:175-257 | every token stream of the grammar is accepted, and its tree is rebuilt |
| ConfigMachine.AcceptedIsGrammar | src/config_parser.cc:175-257 | every accepted token stream is in the grammar, and the tree built is its syntax tree |
| ConfigMachine.AcceptsExactly | src/config_parser.cc:175-257 | the last-token and depth-counter loop accepts a stream with a tree if and only if the stream is the grammar's stream of that well-formed tree |
| ConfigMachine.FlattenInjective | src/config_parser.cc:175-257 | the grammar is unambiguous: two well-formed trees with the same tokens are equal |
| ConfigMachine.ParseExact | src/config_parser.cc:175-257 | from text: parsing yields a tree if and only if the tree is well formed and the tokens of the text are its tokens |
| ConfigMachine.ParsePrint | src/config_parser.cc:28-60 | printing a well-formed tree of legal words at any depth and parsing the result rebuilds exactly that tree |
| ConfigMachine.AcceptedWords | src/config_parser.cc:97-257 | every accepted tree has a word in each statement and only words of the language |
| ConfigMachine.ReparsePrinted | src/config_parser.cc:28-60 | for every accepted text, print-then-parse is the identity on the parsed tree |
| ConfigMachine.ParseIgnoresGaps | src/config_parser.cc:97-257 | replacing a gap between tokens changes neither the tree nor the failure |
| ConfigMachine.ParseIgnoresFiller | src/config_parser.cc:97-257 | neither does inserting space or line-ended comments between tokens |
| ConfigMachine.UndefinedExactly | src/config_parser.cc:232-233 | the loop uses its stack after popping the root if and only if the stream is a whole non-empty configuration, one closing brace, and then a word or another closing brace |
| ConfigMachine.BalancedDefined | src/config_parser.cc:232-233 | a stream in which no prefix closes more blocks than it opened never gets there |
| ConfigMachine.StepExtends | src/config_parser.cc:181-253 | no turn changes a finished statement of any block that stays open, and the stack grows and shrinks with the braces |
| ConfigMachine.StepsOn | src/config_parser.cc:175-257 | statements that are there before parsing change nothing but the result, which they precede |
| ConfigParser.InputStream.Get | src/config_parser.cc:100-104 | get at the end clears good, otherwise returns the next character |
| ConfigParser.InputStream.Unget | src/config_parser.cc:160 | unget puts the character just read back before the rest |
| ConfigParser.ParseToken | src/config_parser.cc:97-173 | the loop over the mutable stream returns the first token of the input, and leaves the stream where that token ends |
| ConfigParser.NginxConfigStatement.ToString | src/config_parser.cc:37-60 | prints the statement that the object graph holds, in that layout |
| ConfigParser.NginxConfig.ToString | src/config_parser.cc:28-34 | prints the tree that the object graph holds, in the layout that ConfigLayout gives position by position |
| ConfigParser.AppendWord | src/config_parser.cc:199-205 | appending a word to the object on top of the stack keeps the stack the rightmost open spine of the tree, and adds the word to the innermost block only |
| ConfigParser.OpenBlock | src/config_parser.cc:215-224 | opening a block gives the last statement, which had none, a new child and pushes that child; the stack stays the open spine |
| ConfigParser.FinishStatement | src/config_parser.cc:210-214 | at a semicolon no object changes and the spine is that of the finished statement |
| ConfigParser.FinishBlock | src/config_parser.cc:225-233 | at a closing brace no object changes, and popping leaves the spine with the block as child of a finished statement |
| ConfigParser.TakeToken | src/config_parser.cc:191-252 | one turn on the objects does what one turn of the machine does, for every token, with the depth counter one less than the stack size; it writes only to the innermost block and its current statement |
| ConfigParser.RootShape | src/config_parser.cc:234-247 | at the end of the input the checks on last token and depth accept exactly when the machine does, and the root then holds the machine's tree |
| ConfigParser.StepsLex | src/config_parser.cc:181-190 | one call of the lexer and one turn are one step of the machine over the whole token stream |
| ConfigParser.ParseLoop | src/config_parser.cc:181-256 | the loop over stream, stack, depth counter and object graph reaches the outcome of the machine |
| ConfigParser.ParseStream | src/config_parser.cc:175-257 | parsing into any configuration object accepts exactly what the machine accepts; the object then holds what it held before, unchanged, followed by exactly the machine's tree, in fresh objects that are not shared |
| Decimal.StoiToString | src/crud_store.cc:26-91 | std::stoi undoes std::to_string on every non-negative int |
| Decimal.StoiDigits | src/crud_request_handler.cc:136 | on digits std::stoi gives their value or throws out of range |
| Decimal.ToStringInjective | src/crud_store.cc:26 | different ids have different file names |
| Decimal.ToStringDigits | src/crud_store.cc:26 | the printed form has the digits of the number in base ten, each in its place, and no more |
| Decimal.ValueLeadingZero | src/crud_request_handler.cc:136 | leading zeros do not change the value |
| Decimal.StoiReads | src/config_parser.cc:293 | std::stoi reads blanks, perhaps a sign, and digits, ignores what follows, and throws out of range outside 32 bits |
| Decimal.StoiRefuses | src/crud_store.cc:91-93 | std::stoi throws invalid argument without a digit there |
| ConfigSettings.Trim | src/config_parser.cc:335-337 | the trimmed path is the prefix that does not end with a slash and cuts nothing but slashes |
| ConfigSettings.PutAllMeaning | src/config_parser.cc:317-328 | putting a block's directives under a new location touches no other location, the last directive of a name wins, and a location without directives gets no entry |
| ConfigSettings.AbsorbAllMeaning | src/config_parser.cc:284-342 | the fold refuses if and only if two locations are equal up to trailing slashes, and otherwise holds exactly one handler entry for each location statement, none overwritten, with its own last-wins directives, and the last port |
| ConfigSettings.TabulatesOnce | src/config_parser.cc:352-356 | the locations and the last port determine the tables |
| ConfigSettings.NginxConfigParser.HasKey | src/config_parser.cc:363-369 | true if and only if the key without its trailing slashes has been seen |
| ConfigSettings.NginxConfigParser.ReadTokens | src/config_parser.cc:320-327 | the loop in steps of two puts exactly the statement's pairs, unquoted |
| ConfigSettings.NginxConfigParser.ReadDirectives | src/config_parser.cc:317-328 | the loop over a location's block puts all its pairs in textual order |
| ConfigSettings.NginxConfigParser.ReadLocation | src/config_parser.cc:302-339 | a repeated location is refused, otherwise handler, directives and trimmed path are entered |
| ConfigSettings.NginxConfigParser.ReadStatement | src/config_parser.cc:285-341 | the loop over words finds every port and location in order and stops at the first repetition |
| ConfigSettings.NginxConfigParser.GetServerSettingsInner | src/config_parser.cc:273-361 | accepts if and only if the last port lies in 0..65353 and locations are pairwise distinct up to trailing slashes; then the stored tables are exactly those of the configuration, and otherwise nothing is stored |
| ConfigPositions.UnquoteExactly | src/config_parser.cc:304-325 | a word without its quotes is v if and only if the word is v and begins with no quote, or is v between two equal quotes |
| ConfigPositions.LastValueByPosition | src/config_parser.cc:317-325 | the value of a name is the word after its last occurrence at an even position in the block, without quotes, and there is none if it does not occur there |
| ConfigPositions.PortByPosition | src/config_parser.cc:293 | the port is the number after the last word port that another word follows, anywhere in the configuration, and -1 if there is none |
| ConfigPositions.PlacesByPosition | src/config_parser.cc:302-315 | the places are exactly those named by a word location and the two words after it, with that statement's block |
| ConfigPositions.DistinctByPosition | src/config_parser.cc:308-338 | the extraction's test for repeated locations fails exactly when two such positions name paths that are equal up to trailing slashes |
| ConfigPositions.TablesByPosition | src/config_parser.cc:284-356 | from an accepted text: for every location statement the tables map the path after location, without quotes, to the next word, and every name to what the last occurrence of it in the block says; and they have no other path |
| Dispatcher.BestIsUnique | src/request_dispatcher.cc:62-70 | the longest covering location, with the slash-ended spelling preferred, is unique, so the iteration order does not matter |
| Dispatcher.SameLength | src/request_dispatcher.cc:63-66 | two covering locations of equal slash-terminated length are spellings of one path |
| Dispatcher.Supersedes | src/request_dispatcher.cc:66-69 | a candidate whose slash-terminated length exceeds the raw length of the best becomes the best of all tried, also when only its slash made it longer |
| Dispatcher.Keeps | src/request_dispatcher.cc:66 | a candidate that is not longer than the raw best loses to it |
| Dispatcher.Select | src/request_dispatcher.cc:59-77 | the loop, in any order over the table, finds the best location and its handler, or none if no location covers the target, and the data of that location and of no other |
| Dispatcher.CoversSegments | src/crud_request_handler.cc:15-35 | a covering location without its slash is a prefix of the target that ends on a segment boundary, so the substr is defined and location plus rest is the target |
| Dispatcher.PlacesDispatched | src/request_dispatcher.cc:59-77 | with distinct locations of which one is "/", every target that starts with a slash goes to one location statement, longer than every other covering one |
| Dispatcher.EveryTargetDispatched | src/request_dispatcher.cc:59-77 | end to end from an accepted configuration text: no location is empty, every target is dispatched to a handler of a location statement, on a segment boundary |
| Dispatcher.SelectedByPosition | src/request_dispatcher.cc:59-77 | end to end from an accepted configuration text: what the loop gives names a location statement; the handler is the word after its path, and root and data path are the words after the last root and data_path in its block, or empty where there is none |
| CrudUrl.ExtractReads | src/crud_request_handler.cc:125-137 | every reading of a path by the pattern, whichever way the slashes are divided, has the scanner's entity and id |
| CrudUrl.ExtractComplete | src/crud_request_handler.cc:131-133 | the scanner refuses a path if and only if the pattern has no reading of it |
| CrudUrl.ExtractAddress | src/crud_request_handler.cc:119-138 | formatting an entity and an id up to INT_MAX and extracting gives the pair back |
| CrudUrl.ExtractSpelled | src/crud_request_handler.cc:125-137 | any number of slashes, letters a to z of either case, and slashes, with or without digits after at least one slash, are the entity and the value of the digits, 0 without digits |
| CrudUrl.ExtractOnlySpelled | src/crud_request_handler.cc:125-137 | every path that is not refused is of that form, character by character |
| CrudHandler.ExtractedId | src/crud_request_handler.cc:119-138 | an extracted id is between 0 and INT_MAX and the entity is a non-empty word of letters |
| FreshIds.NextId | src/crud_store.cc:20-24 | the new id is unused, greater than every used id, and 1 or the greatest used id plus one |
| CrudStore.ListingUnique | src/crud_store.cc:79-103 | a set of ids has one ascending listing |
| CrudStore.SortSpec | src/crud_store.cc:101 | the sorted ids are an ordered permutation |
| CrudStore.SortLists | src/crud_store.cc:101 | sorting distinct ids gives their strictly ascending listing |
| CrudStore.RepresentsAt | src/crud_store.cc:38-41 | in every directory tree that represents a map, a file exists if and only if the map has the entry, and holds its body |
| CrudStore.WriteFile | src/crud_store.cc:26-34 | writing a file is an update of one entry of the map |
| CrudStore.RemoveFile | src/crud_store.cc:74-77 | removing a file removes one entry of the map |
| CrudStore.MakeDirectory | src/crud_store.cc:14-16 | creating an entity's directory changes no entry |
| CrudStore.CRUDStore.Create | src/crud_store.cc:12-35 | returns 1 or the greatest live id plus one and adds exactly that entry; -1 and no change if the file cannot be opened |
| CrudStore.CRUDStore.Retrieve | src/crud_store.cc:37-51 | returns the map's entry, or nothing |
| CrudStore.CRUDStore.Update | src/crud_store.cc:53-72 | overwrites or adds exactly one entry; false and no change if the file cannot be opened |
| CrudStore.CRUDStore.Del | src/crud_store.cc:74-77 | removes the entry and says whether there was one |
| CrudStore.CRUDStore.List | src/crud_store.cc:79-103 | returns exactly the live ids, strictly ascending, for any directory order |
| CrudHandler.CRUDRequestHandler.constructor | src/crud_request_handler.cc:12-17 | keeps the location without one trailing slash |
| CrudHandler.CRUDRequestHandler.GetEntity | src/crud_request_handler.cc:142-157 | lists for id 0, otherwise answers with the entry or 404, and changes nothing |
| CrudHandler.CRUDRequestHandler.PostEntity | src/crud_request_handler.cc:159-171 | 400 for a body that is not JSON, 500 for a failed file, otherwise one new entry with the canonical text and its id as answer |
| CrudHandler.CRUDRequestHandler.PutEntity | src/crud_request_handler.cc:173-182 | the same for an update; the answer to a success keeps the initial body |
| CrudHandler.CRUDRequestHandler.DeleteEntity | src/crud_request_handler.cc:184-189 | removes the entry, or answers 404 |
| CrudHandler.CRUDRequestHandler.HandleRequest | src/crud_request_handler.cc:28-91 | every request has the effect and the answer of the relation over the map, for every verb and every path |
| CrudHistory.SafeOrRejected | src/crud_request_handler.cc:28-91 | GET, and every request not answered with 200, leaves the store unchanged |
| CrudHistory.Idempotent | src/crud_request_handler.cc:173-189 | repeating a PUT or a DELETE leaves the store as the first one did (sections 9.2.1 and 9.2.2 of RFC 9110) |
| CrudHistory.PostAddsOne | src/crud_request_handler.cc:159-171 | a successful POST adds one entry under an id greater than all live ids of the entity, answers with it, and changes no other entry |
| CrudHistory.StoreHoldsLatest | src/crud_request_handler.cc:28-91 | after any sequence of requests the store holds, for every entity and id, the latest text written and not deleted since, as the exchanged messages alone tell it |
| CrudHistory.GetAnswersLatest | src/crud_request_handler.cc:142-157 | after any sequence of requests a GET is answered with that text, or with 404 |
| CrudAnswers.ListRead | src/crud_request_handler.cc:146 | a list in an answer, split at its commas and read with std::stoi, is the list of ids |
| CrudAnswers.ListAnswersLatest | src/crud_request_handler.cc:142-148 | after any sequence of requests a GET without an id is answered with 200 and a list that reads as the strictly ascending ids of exactly those entries that were written and not deleted since |
| CrudAnswers.AnswerExactly | src/crud_request_handler.cc:28-189 | status, content type and text of every answer, in numbers and words |
| CrudAnswers.CreatedIdRead | src/crud_request_handler.cc:165-170 | the number in the answer to a creation is the id of the entry that it has made, which was free |
| CrudHistory.StoreIsCanonical | src/crud_request_handler.cc:159-182 | after any sequence of requests every stored text is its own canonical JSON |
| CrudHistory.PutBackChangesNothing | src/crud_request_handler.cc:173-182 | writing back what a GET returned changes nothing |
| CrudHistory.AddressServed | src/crud_request_handler.cc:15-36 | the address of an entity's id below a location is covered by that location, and the handler made for it reads the same entity and id |
| CrudRaces.EntryAfter | src/crud_store.cc:12-77 | after any interleaving of the steps of creations, updates and removals an entry is there if and only if some step wrote it and none removed it since, or it was there and none removed it |
| CrudRaces.CreateOverwritesExactly | include/crud_store.h:17-20 | a creation overwrites an entry if and only if, between listing the ids and opening the file, another request wrote that entry and none removed it since; the header promises that it never does |
| CrudRaces.AloneNeverOverwrites | include/crud_store.h:17-20 | a creation that nothing comes between keeps that promise |
| CrudRaces.RacingCreatesCollide | src/crud_store.cc:20-34 | two creations that both list before either writes are given one id, and the first text is lost |
| GameDatabase.Connection.LoginTransaction | src/game_request_handler.cc:267-308 | the loop over four commands adds at most one session row and then returns radishes, all upgrade rows and the session of the user whose hash matches |
| GameDatabase.Connection.ReadUpgrades | src/game_request_handler.cc:288-302 | the loop over rows collects exactly the user's upgrades |
| GameDatabase.Connection.SaveTransaction | src/game_request_handler.cc:463-527 | the loop over commands is one all-or-nothing update of radishes, every listed upgrade and the session |
| GameDatabase.Connection.ReplaceUpgrades | src/game_request_handler.cc:467-473 | one command for each upgrade, in any order, gives the state with all of them written |
| GameDatabase.SavedInSteps | src/game_request_handler.cc:465-475 | first radishes, then upgrades, then the session is the whole save, with each command's own session check |
| GameDatabase.OwnRows | src/game_request_handler.cc:467-473 | replacing rows overrides the user's upgrades by the saved ones and keeps those not listed |
| GameDatabase.OtherRows | src/game_request_handler.cc:467-473 | replacing rows of one user leaves the rows of every other user |
| GameProtocol.InvInitially | tests/game_request_handler_test.cc:19-36 | the empty tables satisfy the invariant |
| GameProtocol.StepKeeps | src/game_request_handler.cc:167-213 | no step of any request removes an account or changes its id, hash or salt |
| GameProtocol.StepGoodUsers | tests/game_request_handler_test.cc:19-36 | every step keeps user ids distinct and upgrade rows attached to users |
| GameProtocol.SessionsAfter | src/game_request_handler.cc:267-270 | the session table changes only by an effective save, which removes the saver's row, and by one new row with a freshly drawn id |
| GameProtocol.StepGoodSessions | src/game_request_handler.cc:448-532 | every step keeps session ids distinct and drawn, and the ids of effective saves spent |
| GameProtocol.StepGoodProcs | src/game_request_handler.cc:224-314 | every step of any request keeps what every login in flight relies on, also between its database steps |
| GameProtocol.StepInv | src/game_request_handler.cc:167-532 | the whole invariant is kept by every step of every interleaving |
| GameSafety.SavedProgress | src/game_request_handler.cc:463-475 | an effective save sets the user's radishes and listed upgrades, keeps the others, ends the session, and touches no other user |
| GameSafety.NewAccountStartsEmpty | src/game_request_handler.cc:182-207 | a new account starts with no radishes and no upgrades |
| GameSafety.OnlySavesChangeProgress | src/game_request_handler.cc:448-532 | in every reachable state and for every step: a user's radishes and upgrades change if the step is the commit of a save with the session id that the user has at that moment, and then completely; otherwise they stay and an open session stays open |
| GameSafety.RightPasswordLogin | src/game_request_handler.cc:267-305 | a login whose hash matches gets the user's radishes, all upgrades, and the open session or a fresh one |
| GameSafety.WrongPasswordLogin | src/game_request_handler.cc:269-313 | a login whose hash does not match reads nothing, and still adds a session row under the next free id |
| GameSafety.LoginTouchesOnlyItsUser | src/game_request_handler.cc:269 | a login leaves every other user online or offline as before if and only if the hash matches or the next free session row is no other user's |
| GameSafety.WrongPasswordPutsAnotherOnline | src/game_request_handler.cc:269 | a concrete database in which a wrong password puts another user online |
| GameSafety.ProbeNeverRefuses | src/game_request_handler.cc:402-452 | the 16-character check before a save never finds a session, so it refuses no save |
| GameSafety.SaltIsAlwaysFound | src/game_request_handler.cc:252-256 | in every interleaving a login that reads a salt finds it |
| GameSafety.CommitAlwaysAnswersChanged | src/game_request_handler.cc:448-532 | a save that reaches its transaction is answered with success whether or not it had an effect |
| GameSafety.RunInv | src/game_request_handler.cc:167-532 | the invariant holds after any run of any number of interleaved requests |
| GameSafety.RunKeepsAccounts | src/game_request_handler.cc:167-213 | over any run no account is lost and no id, hash or salt changes, also when several creations of one name pass their check |
| GameSafety.SessionsAuthoriseOnce | src/game_request_handler.cc:448-532 | over any run a session id authorises at most one effective save even if several pass the online check, no two users share one, and a spent one is nobody's |
| GameSafety.RunKeepsProgress | src/game_request_handler.cc:448-532 | over any run without an effective save of a user, that user's progress and open session stay |
| GameSafety.SaveThenLogin | src/game_request_handler.cc:224-532 | after an effective save and any run without another of that user, a right-password login gets the saved radishes and the old upgrades overridden by the saved ones, with an open session |
| GameSafety.RacingLoginsShareSession | src/game_request_handler.cc:226-305 | a later login transaction of a user who is online gets the session that is open and changes nothing |
| GameRaces.SecondSaveIsLost | src/game_request_handler.cc:448-532 | in every run, a save with a session id that has authorised a save before is answered with success like the first, changes no row of any user, and leaves its upgrades as rows without an owner |
| GameRaces.RacingSaves | src/game_request_handler.cc:452-532 | two saves of one user that both reach their transactions: the first takes effect, the second does not, both are answered with success |
| GameRaces.OnlineAfterLogin | src/game_request_handler.cc:269 | exactly who is online after a login transaction: whoever was, and the user of the new row, which with a wrong password is the user with the next free id |
| GameRaces.UnknownSessionStays | src/game_request_handler.cc:448-532 | over any run in which no save carries a session's id its user stays online with the same progress |
| GameRaces.LockedOut | src/game_request_handler.cc:226-228 | and every login of that user is refused |
| GameRaces.WrongPasswordRun | src/game_request_handler.cc:224-314 | a run from empty tables: two accounts are created, and a login of the second with a wrong password puts the first online, who never logged in, under a session id that nobody is given |
| GameHandler.StepsRunOut | src/game_request_handler.cc:167-532 | every step of a request brings its answer nearer: four steps at most |
| GameHandler.RunOnTrack | src/game_request_handler.cc:167-532 | in every run every request is in one of the phases of its kind |
| GameHandler.FinishCreate | src/game_request_handler.cc:167-213 | the steps of a creation with nothing in between: refused if and only if the name is taken |
| GameHandler.FinishLogin | src/game_request_handler.cc:224-314 | the steps of a login with nothing in between: refused if and only if the user is online or unknown |
| GameHandler.FinishSave | src/game_request_handler.cc:448-532 | the steps of a save with nothing in between: refused if and only if the user is offline or the probe finds a session |
| GameHandler.GameRequestHandler.AddUser | src/game_request_handler.cc:167-213 | the sequential method does what the protocol's steps do without interleaving |
| GameHandler.GameRequestHandler.GetValues | src/game_request_handler.cc:224-314 | the same for a login, and the handler's data is what the login read |
| GameHandler.GameRequestHandler.UpdateValues | src/game_request_handler.cc:448-532 | the same for a save |
| Prices.CostBounds | static_files/clicker_game/index.js:267-269 | the price is the initial price times 1.15 to the count, rounded down |
| Prices.PowProduct | static_files/clicker_game/index.js:268 | the power in it is the repeated product |
| Prices.CostRises | static_files/clicker_game/index.js:267-269 | each purchase raises the next price by at least 15 dollars |
| Prices.SumWithinGeometric | static_files/clicker_game/index.js:267-269 | the prices between any two counts add up to at most the geometric sum with ratio 23/20, and to less than one dollar for each of them below it |
| ClickerWorld.InitiallyGood | static_files/clicker_game/index.js:6-38 | the start satisfies the invariant, with all cards in step |
| ClickerWorld.NextSound | static_files/clicker_game/index.js:76-361 | no event makes money or radishes negative or a card's price other than floor(initial * 1.15^count) of its own count; and after an event all counted cards agree with their globals exactly when it is a logout, or a load into a game without Charlie, or a load that leaves the almonds and lobsters at what their cards show, or another event and they agreed before |
| ClickerWorld.LoadKeepsGood | static_files/clicker_game/index.js:301-361 | a load into a game whose cards agree keeps them so if and only if Charlie was not bought or neither almonds nor lobsters change: showing a bought card as bought again throws and ends the refresh |
| ClickerWorld.RunSound | static_files/clicker_game/index.js:76-361 | the invariant holds after every run of clicks, ticks, sales, purchases, loads and logouts |
| ClickerWorld.GuestLoginLeavesStaleCard | static_files/clicker_game/index.js:301-361 | a run from the start: a guest buys Charlie and logs in to an account with three almonds; the game has three, and their card still shows none at the initial price |
| ClickerWorld.BoughtCount | static_files/clicker_game/index.js:214-280 | a purchase moves the card's count and the global count together |
| ClickerWorld.WalkedIsRefreshed | static_files/clicker_game/index.js:332-361 | a walk over the cards in their order, ended by an exception or not, leaves what the closed form of the refresh says |
| ClickerRules.NewGame | static_files/clicker_game/index.js:6-38 | what a new game has and what its cards cost, in numbers |
| ClickerRules.LogoutTakesAll | static_files/clicker_game/index.js:552-565 | a logout leaves no radish, money, upgrade or flag, and puts the upper price back to 125 cents; timer and price stay |
| ClickerRules.ClickGives | static_files/clicker_game/index.js:76-79 | a click gives one radish, and with Powell one more for every hundred farmers, and nothing else |
| ClickerRules.TickGives | static_files/clicker_game/index.js:104-111 | a tick adds the radishes of one second and changes nothing else but timer and price |
| ClickerRules.NothingGrows | static_files/clicker_game/index.js:142-153 | no farmers and no farms, no radishes |
| ClickerRules.FarmerAdds | static_files/clicker_game/index.js:142-153 | a farmer adds one radish a second and one for every taffy; with Powell every hundredth farmer adds the plain rate once more |
| ClickerRules.FarmAdds | static_files/clicker_game/index.js:142-153 | a farm adds ten radishes a second, and with Charlie ten for every almond |
| ClickerRules.TaffyAdds | static_files/clicker_game/index.js:142-153 | a taffy adds a radish a second for every farmer |
| ClickerRules.AlmondAdds | static_files/clicker_game/index.js:142-153 | an almond adds ten radishes a second for every farm with Charlie, and none without |
| ClickerRules.LobsterAddsNothing | static_files/clicker_game/index.js:142-153 | a lobster adds none |
| ClickerRules.CharlieAdds | static_files/clicker_game/index.js:142-153 | Charlie adds ten radishes a second for every farm and almond, once |
| ClickerRules.PowellAdds | static_files/clicker_game/index.js:142-153 | Powell adds the rate again for every hundred farmers, once |
| ClickerRules.PurchaseChanges | static_files/clicker_game/index.js:214-265 | an affordable purchase takes the price of the card, sets the flag of a unique card, and for a lobster raises the upper price by 20 cents |
| ClickerRules.PurchaseCounts | static_files/clicker_game/index.js:243-263 | it adds one to the count of its own upgrade and to no other |
| ClickerRules.TooExpensive | static_files/clicker_game/index.js:219-222 | a purchase without the money changes nothing |
| ClickerRules.LoadShows | static_files/clicker_game/index.js:301-361 | after a load Charlie is shown as bought if he is, and Powell too, unless Charlie was bought before: then the refresh did not reach Powell |
| ClickerRules.SaleExactly | static_files/clicker_game/index.js:162-171 | one radish leaves exactly when there is one, ten when there are ten, and all in a sale of all, each for the current price |
| ClickerRules.PriceEveryTenthTick | static_files/clicker_game/index.js:104-111 | after any run from the start the price changes at the tenth tick, the twentieth and so on, to one between 75 cents and the upper price, and at no other event |
| Clicker.Game.OnRadishClick | static_files/clicker_game/index.js:76-82 | a click keeps the invariant and adds at least one radish |
| Clicker.Game.UpdateLoop | static_files/clicker_game/index.js:104-115 | a tick keeps the invariant and takes no radish |
| Clicker.Game.SellRadish | static_files/clicker_game/index.js:162-175 | a sale keeps the invariant, and money plus radishes at the current price stay worth the same |
| Clicker.Game.BuyUpgrade | static_files/clicker_game/index.js:214-280 | the step-by-step update of globals, card, price range and shown state, with its early returns and its exception, is one purchase, and keeps the invariant |
| Clicker.Game.UpdateMarketUI | static_files/clicker_game/index.js:332-361 | the ordered loop that an exception ends is the refresh in closed form, and it throws if and only if a unique card is bought and shown so already |
| Clicker.Game.LoadData | static_files/clicker_game/index.js:456-498 | the load as a whole keeps the invariant; it is reported as failed if and only if Charlie was bought before, or Powell was and is shown so, and the values are taken over all the same |
| Clicker.Game.DoLogout | static_files/clicker_game/index.js:523-537 | a logout never throws, and leaves all cards in step |
| ClickerEconomy.BuyingNeverLowersRate | static_files/clicker_game/index.js:142-265 | no purchase lowers the radishes per second |
| ClickerEconomy.BooksBalance | static_files/clicker_game/index.js:76-280 | over any play from any reachable state the money is the starting money plus all sales minus the price of each unit bought, and nothing is negative |
| ClickerEconomy.StepSpends | static_files/clicker_game/index.js:214-280 | what an event spends on a counted upgrade is nothing, or the price at the card's count, and then card and global rise by one |
| ClickerEconomy.SpendingFollowsCount | static_files/clicker_game/index.js:214-280 | over any play from any reachable state the money spent on a counted upgrade is the sum of the prices from the card's count before to its count after, and the global count rises by as many |
| ClickerEconomy.SpendingIsGeometric | static_files/clicker_game/index.js:214-280 | over any play between loads and resets, from any reachable state, that is at most the geometric sum with ratio 23/20 between the two counts, and within one dollar for each unit of it |
| ClickerEconomy.PlayStaysInStep | static_files/clicker_game/index.js:214-280 | a play neither loses nor repairs the agreement of cards and globals, so from an agreeing state the counts are those of the globals |
| ClickerSaves.ReceivedIsSaved | static_files/clicker_game/index.js:539-550 | whatever rows the server had before, what the client reads after a save is what was saved |
| ClickerSaves.SavedValues | static_files/clicker_game/index.js:539-550 | a logout sends each number under its own name, money in whole dollars and flags as 0 or 1 |
| ClickerSaves.LoadTakes | static_files/clicker_game/index.js:456-483 | a load takes each number that is there and not zero from under its own name, and leaves everything else |
| ClickerSaves.LoadRestoresExactly | static_files/clicker_game/index.js:456-483 | a load brings back a saved game into any client if and only if nothing is left over there: each saved zero is zero already, less than a dollar saved finds no money, and no flag is set that was not saved |
| ClickerSaves.GuestRadishSurvivesLogin | static_files/clicker_game/index.js:457-459 | a run from the start: a guest's radish survives the login to an account that was saved with none |
| ClickerSaves.LogoutThenLoginRestores | static_files/clicker_game/index.js:456-566 | from every reachable state, logout and then a load of what was saved restores radishes, counts and flags, and the money in whole dollars, with all cards in step, also if they were not |
| ClickerSaves.SentUnchanged | include/game_request_handler.h:14-18 | the server's ints hold what the client sends if and only if every number is below 2^31 |
| ClickerSaves.GameSurvivesServer | static_files/clicker_game/index.js:456-566 | client and server together: after an effective save of the game's values, any run without another save of that user, and a right-password login, the client has its game back |

## Left out

- ParseStream: the inputs on which the stack is used after the root was popped are excluded, which `UndefinedExactly` characterises and `BalancedDefined` bounds.
- GetServerSettingsInner: location statements out of shape are excluded (no handler word, no block, a directive without a parameter), as are ports on which `std::stoi` throws, empty location paths and paths with several trailing slashes, on which the loop at src/config_parser.cc:335-337 does not end; the read before the start of the path that "/" trims to counts as "not a slash". The extractor works on the parsed tree as a value, not on the shared statement objects.
- Select: locations and target are not empty; the validity check of requests (src/request_dispatcher.cc:95-105) is not modelled, and the handler is its name, so that an unregistered name is not an error. When no location covers the target the program calls an uninitialised pointer; the model returns None.
- HandleRequest: an id that does not fit an int, on which the program throws, and an entity whose greatest id is INT_MAX are excluded. JSON is a partial canonicalisation function.
- CRUDStore.Create: whether a file can be opened is a parameter; failing directory operations and files in the directories that the store did not write are not modelled. Concurrent requests are in `CrudRaces` only, where listing the ids and writing a file are one step each.
- CRUDStore.List: `std::sort` is the insertion sort of `Sort`, of which only order and permutation are used.
- LoginTransaction: the radishes of a login that reads no row are None; in the program they are uninitialised memory.
- StepInv: each statement outside a transaction and each exclusive transaction is one atomic step; lock failures and other database errors are left out, and so is the decoding of the request's JSON with its 400 and 422 answers. The hash is any function of password and salt; salts and session ids are drawn from outside, and session ids are fresh.
- ReadUpgrades: upgrade numbers and radishes in the database are unbounded integers; `SentUnchanged` and `GameSurvivesServer` state the bound of the server's int.
- LogoutThenLoginRestores: the end of the price range is not restored by a load, as in the script, and is no part of the claim. What happens in the game between sending the values and the server's answer is lost by the reset; the model does both in one event.
- NextSound: loaded radishes and upgrades are not negative, as those that a client of this game saves are; the server would also return negative numbers that another client has sent, and after a wrong password an uninitialised one. Prices and money are exact, while the script computes them in floating point; the text shown for the price range, animations and the requests themselves are left out.
- The echo, health, file, blocking and not-found handlers, the handler registry, logging, signal handling, sessions, server and sockets are plumbing without a hard property.
