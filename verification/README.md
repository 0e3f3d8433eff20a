# Query analysis around the PostgreSQL parser: a Dafny model

The library wraps the PostgreSQL parser with a layer that analyses queries: it fingerprints
parse trees, replaces constants by parameters, prints and reads trees as JSON and protobuf
messages, splits a text into statements; a script extracts from the PostgreSQL sources the
symbols the library needs. This project models that layer and proves what it is for. Parse
trees and token streams are inputs, as plain datatypes.

The parts, and their main results:

* **Fingerprints** (`ParseTree`, `Sorting`, `FingerprintWalk`, `FingerprintMeaning`,
  `FingerprintText`, `FingerprintApart`, `FingerprintSimilar`, `FingerprintCost`,
  `FingerprintTrace`, `Fingerprint`). The hash state is the text fed so far under an
  arbitrary digest; sorting is an arbitrary sort by hash. `FingerprintWalk.Walk` is the walk
  without a cache. The class `FingerprintContext` is the program's walk: contexts fed in
  place and one cache shared by all of them. It is proved to feed exactly what `Walk` feeds
  on trees whose list pointers occur once, never to insert a list twice, and to make at most
  size x (1 + nesting of sorted lists) calls, where the walk without the cache makes 2^k on k
  nested lists. Without digest collisions a walk feeds the text of the tree, which
  `FingerprintText.Text` spells out for every kind of node and field, and in which sorted
  lists are sets. Hence trees that differ anywhere in order, repetition, constants, in
  aliases and other nodes that feed nothing, whether they are there or not, in ignored fields
  or deep subtrees (`FingerprintSimilar.Alike`) have the same fingerprint, and trees that
  differ in one place that counts (`FingerprintApart.Differ`) feed different texts.
  `collided` in the state records a comparison in which two different texts had the same
  digest; an injective digest never sets it.
* **Normalization** (`NormalizeLengths`, `NormalizeMeasured`, `NormalizeSplice`,
  `NormalizeWalk`, `NormalizeIds`, `NormalizeTrees`, `NormalizeGroup`, `NormalizeSums`,
  `NormalizeTally`, `NormalizeTheorems`, `NormalizeMarks`, `NormalizeRefs`,
  `NormalizeSymbols`, `NormalizeWitness`, `Normalize`). One merge of sorted locations with
  the tokens measures every constant as the token it lies in, exactly when the locations
  start tokens; the splice loop stays inside its buffer, runs to its end exactly when the
  measured pieces do not overlap, and can be undone. What a walk does to its counts, its id
  counter and its ids is computed from the tree and the fingerprints of its nodes
  (`NormalizeSums.SumOf`), and proved of every walk (`NormalizeTally.WalkTallies`). Which
  GROUP BY item takes which target element's references is told by an injective matching of
  the two lists. Which places of a tree are replaced is read off the tree
  (`NormalizeMarks.Marks`), and which number stands in each slot of the result is stated on
  the text (`NormalizeSymbols.RightSymbol`): the greatest parameter of the tree plus the
  constant's rank among those with an id of their own, or the number it took over.
* **Printers and readers** (`Json`, `JsonWriter`, `JsonTrees`, `JsonReader`, `OutfuncsJson`,
  `PlpgsqlTrees`, `PlpgsqlReader`, `PlpgsqlJson`, `Protobuf`). A reference parser for RFC
  8259 (sections 2 and 7, integer numbers) reads the intended value back from what the two
  JSON writers print, character by character into one buffer with its trailing-comma
  trimming; a reader guided by the types of the fields turns that value back into the tree or
  function that was printed, every field of it. The library has no such readers: they say
  what the text holds. The protobuf reader, which it has, undoes the writer exactly on trees
  without empty strings in fields.
* **Statement splitter** (`Splitter`). Both passes of the token state machine compute the
  segments between top-level semicolons that contain a keyword; top level is where as many
  parentheses were closed as opened, modulo 2^64.
* **Symbol closure** (`SymbolClosure`). The mark-before-recurse traversal of the extraction
  script puts out exactly the reachable symbols; it exits only at a symbol it cannot visit or
  below more than 100 different symbols.

Where the code does not do what it is meant to do, or what its comments say, the model
follows the code; the exact condition is proved, and an input that fails is given:

* The comment above `generate_normalized_query` says the result cannot be longer than the
  query. Its length is the query's plus the sum, over the measured constants, of the length
  of the symbol less the length of the constant, so it is not longer if and only if that sum
  is not positive (`NormalizeSplice.NotLongerIff`). `SELECT 1` becomes `SELECT $1`
  (`NormalizeSplice.OneBecomesLonger`).
* Every constant gets the length of the token its location lies in (after a minus sign, to
  the end of the next one) if and only if every recorded location starts a token and no number
  behind a recorded minus sign is recorded too (`NormalizeMeasured.FilledIff`). The location
  recorded for an escape string after PASSWORD is inside its token, and
  `CREATE ROLE r PASSWORD E'a' LOGIN` loses its last word
  (`NormalizeWitness.EscapePasswordTakesNextToken`).
* The id counter ends one above the number of constants that keep their own id, and their ids
  are 1, 2, 3, ... up to it, if and only if no item doubles: no GROUP BY item with as many
  constants as its matched target element has references gives ids back by itself
  (`NormalizeTheorems.IdsExactIff`, `NormalizeSums.DoublesIff`).
* Every constant that keeps its own id becomes a parameter that no other such constant becomes
  and that the query did not have, if and only if none of them is recorded after a doubled
  item (`NormalizeTheorems.OwnParametersIff`, `NormalizeTheorems.FreshAboveParams`; the
  condition `NormalizeSums.Late` is on tree and fingerprints). Since the fingerprint does not
  look below depth 100, an item with a sub-SELECT inside fifty calls is matched with an
  element without one, without any digest collision. Then two constants share a parameter
  that neither took over (`NormalizeWitness.DeepCallsShare`), or one becomes `$0`
  (`NormalizeWitness.DeepCallsGiveZero`); with no constant behind the item nothing is wrong,
  although the item doubles (`NormalizeWitness.DeepCallsAlone`).
* Tokens spell the bytes hashed if and only if no field is rolled back whose child fed
  something (`FingerprintTrace.TokensSpellBytesIff`). Rolling back deletes one token only, so
  a digest that confuses two particular texts breaks it (`FingerprintTrace.SlipWitness`).
* Empty strings in fields are read back from protobuf as NULL: `Protobuf.RoundTripIff`.
* The members of a Bitmapset are fed without anything between them, so that {1, 2} and {12}
  have the same text (`FingerprintApart.BitsRunTogether`).

Three results show what a hypothesis is for; the code never receives these inputs. A number
recorded on its own behind a recorded minus sign would overlap it
(`NormalizeLengths.NumberAfterMinusOverlaps`). A PL/pgSQL datum of a kind the writer does not
print, which nothing here creates, would give text that is not JSON (`PlpgsqlJson.ToJson`). A
single-character field holding a quote, a backslash or a control character would be printed
without escaping (`OutfuncsJson.NodesToJson`).

`dafny verify dfyconfig.toml` checks the whole project.

## Model

| member | source | states |
|---|---|---|
| `ParseTree.PlanOf` | src/pg_query_fingerprint.c:251-292 | every walk of a node only descends into proper parts of it, so the recursion ends without the depth cut; what it feeds is stated by FingerprintText.MeaningIsText |
| `ParseTree.FieldStep` | scripts/generate_fingerprint_outfuncs.rb:59-300 | the template of a field (integers, floats, characters, strings, booleans, bit sets, enums, pointers, embedded structs) either feeds nothing or a non-empty text, or walks a proper part of the node |
| `ParseTree.Lookup` | scripts/generate_fingerprint_outfuncs.rb:26-27 | a value found for a field is the value of a field with that name, and none is found only if there is no such field |
| `FingerprintWalk.SortedItems` | src/pg_query_fingerprint.c:171-186 | the sorted array is a permutation of the item hashes in the order of the hashes, every position valid |
| `FingerprintMeaning.WalkFeeds` | src/pg_query_fingerprint.c:138-214 | without collisions a walk feeds exactly the denotation of the tree, in which sorted lists are sets, and an empty denotation leaves the hash state and the tokens as they were |
| `FingerprintMeaning.SettleFeeds` | scripts/generate_fingerprint_outfuncs.rb:79-95 | the rollback of a field whose child fed nothing removes the field name and nothing else; otherwise name and child stay |
| `FingerprintMeaning.PickHash` | src/pg_query_fingerprint.c:171-186 | the hash of a sorted item is the digest of the meaning of the member it points at |
| `FingerprintMeaning.PicksDiffer` | src/pg_query_fingerprint.c:195-201 | items with equal hashes mean the same, so skipping duplicates loses nothing |
| `FingerprintMeaning.SortedMeanings` | src/pg_query_fingerprint.c:171-201 | the members picked after sorting are, as a set of meanings, all members |
| `FingerprintText.MeaningIsText` | src/pg_query_fingerprint.c:251-292 | what a visit feeds is the text of its node, spelled out kind by kind: type, member and value of a value node, the tag and every field that counts of a struct, each by its own rule, the items of a list, and for the six sorted lists the set of the members' texts |
| `FingerprintText.WalkFeedsText` | src/pg_query_fingerprint.c:251-292 | from any state a walk without collisions adds exactly that text |
| `FingerprintText.FingerprintOfText` | src/pg_query_fingerprint.c:294-307 | without collisions the fingerprint is the digest of the text of the tree |
| `FingerprintText.TokensOfText` | src/pg_query_fingerprint.c:81-93 | without collisions the tokens spell the text of the tree when they are asked for, and none are written when they are not |
| `FingerprintText.LeafFeeds` | src/pg_query_fingerprint.c:95-128 | collisions or not, an integer other than 0, a float, a string or a bit string feeds, and writes as tokens, its type, the name of its member and the value |
| `FingerprintText.FieldFeeds` | scripts/generate_fingerprint_outfuncs.rb:59-220 | likewise a struct with one field that holds no node: the tag, then the name and the value, or nothing when the field does not count |
| `FingerprintApart.DifferentTexts` | src/pg_query_fingerprint.c:251-292 | two trees that differ in one value, tag or field that counts, on a path through no sorted list, have different texts |
| `FingerprintApart.DifferentTreesFeedApart` | src/pg_query_fingerprint.c:251-292 | from one start state walks of such trees feed different texts |
| `FingerprintApart.DifferentTreesOneFingerprint` | src/pg_query_fingerprint.c:294-307 | such trees share a fingerprint only if the digest confuses their two texts |
| `FingerprintApart.MembersApartIff` | src/pg_query_fingerprint.c:171-201 | exchanging one member of a sorted list leaves the set of the members' texts the same if and only if both members have the same text, or the text of each is empty or also that of another member |
| `FingerprintApart.JoinIsSorted` | src/pg_query_fingerprint.c:186-201 | the texts of a sorted list are fed one after the other in the order of their digests |
| `FingerprintApart.BitsRunTogether` | scripts/generate_fingerprint_outfuncs.rb:201-218 | two different Bitmapsets with the same text |
| `FingerprintSimilar.SimilarTreesSameFingerprint` | src/pg_query_fingerprint.c:138-214 | similar trees feed the same text to the hash and have the same fingerprint |
| `FingerprintSimilar.SimilarMeansSame` | src/pg_query_fingerprint.c:138-214 | similar nodes have the same denotation under every digest |
| `FingerprintSimilar.SimilarRefl` | src/pg_query_fingerprint.c:251-292 | every node is similar to itself |
| `FingerprintSimilar.SameMembersSimilar` | src/pg_query_fingerprint.c:141-201 | a sorted list may be reordered and its members repeated or reduced to one occurrence |
| `FingerprintSimilar.PermutedListSimilar` | src/pg_query_fingerprint.c:141-201 | a sorted list may be permuted |
| `FingerprintSimilar.SilentQuiet` | scripts/generate_fingerprint_outfuncs.rb:228-236 | constants, parameters, aliases, the other skipped tags and casts of constants feed nothing |
| `FingerprintSimilar.SilentListsSimilar` | scripts/generate_fingerprint_outfuncs.rb:228-236 | sorted lists of such nodes, for instance IN lists of constants and casts of constants, are similar whatever their lengths and contents |
| `FingerprintSimilar.TooDeepSimilar` | src/pg_query_fingerprint.c:254-257 | at depth 100 any subtree is similar to any other |
| `FingerprintSimilar.FieldCongruence` | scripts/generate_fingerprint_outfuncs.rb:79-136 | replacing what a field points to by something similar, or setting or dropping something that feeds nothing, gives a similar node, casts included as long as the node is or is not a cast of a constant before and after |
| `FingerprintSimilar.ItemCongruence` | src/pg_query_fingerprint.c:171-213 | replacing a list item by a similar one gives a similar list |
| `FingerprintSimilar.AlikeSimilar` | src/pg_query_fingerprint.c:251-292 | trees that differ at any depth only in order and repetition in sorted lists, in mute nodes (skipped tags, casts of constants, NULL, lists of these) that may be there or not, ignored fields, digit runs of relation names, and everything from depth 100 on, are walked similarly |
| `FingerprintSimilar.AlikeTreesSameFingerprint` | src/pg_query_fingerprint.c:138-214 | such trees feed the same text and have the same fingerprint |
| `FingerprintSimilar.AlikeChainMeansSame` | src/pg_query_fingerprint.c:138-214 | a chain of such edits keeps the denotation under every digest |
| `FingerprintSimilar.AlikeChainSameFingerprint` | src/pg_query_fingerprint.c:138-214 | a chain of such edits keeps the fingerprint, whatever the trees in between |
| `FingerprintSimilar.SameMembersAlike` | src/pg_query_fingerprint.c:141-201 | reordering a sorted list, repeating members or dropping repetitions is such an edit |
| `FingerprintSimilar.MuteMemberAlike` | src/pg_query_fingerprint.c:171-201 | so is adding a constant, or another node that feeds nothing, to a sorted list |
| `FingerprintSimilar.MuteFieldAlike` | scripts/generate_fingerprint_outfuncs.rb:79-136 | so is setting, changing or dropping a field that feeds nothing, such as an alias |
| `FingerprintCost.FirstCostBound` | src/pg_query_fingerprint.c:145-202 | visiting every sorted list's members twice once costs at most size x (1 + nesting of sorted lists) |
| `FingerprintCost.UniqueListsCoherent` | src/pg_query_fingerprint.c:158-193 | when list pointers occur once, each has one parent, field and depth |
| `FingerprintCost.UncachedDoubles` | src/pg_query_fingerprint.c:145-154 | without the cache k nested argument lists cost at least 2^k calls |
| `FingerprintTrace.TokensSpellBytesIff` | src/pg_query_fingerprint.c:81-93 | the tokens written spell exactly the bytes hashed if and only if no field of the walk is rolled back although its child fed something |
| `FingerprintTrace.WalkTracks` | src/pg_query_fingerprint.c:138-214 | from any state a walk keeps tokens and bytes in step if and only if it makes no such slip |
| `FingerprintTrace.SlipWitness` | scripts/generate_fingerprint_outfuncs.rb:79-95 | a tree of two nodes whose tokens are out of step under any digest that confuses two given texts |
| `FingerprintTrace.SettleInStepIff` | scripts/generate_fingerprint_outfuncs.rb:79-95 | the end of a field keeps tokens and hash in step if and only if an unchanged digest means that the child fed nothing |
| `FingerprintTrace.WritingDoesNotMatter` | src/pg_query_fingerprint.c:216-241 | writing tokens or not, a walk hashes the same bytes |
| `FingerprintTrace.InjectiveNeverCollides` | src/pg_query_fingerprint.c:138-214 | an injective digest never collides, so the results above hold unconditionally for it |
| `Fingerprint.StripRelationName` | scripts/generate_fingerprint_outfuncs.rb:26-46 | the copying loop keeps exactly the characters outside runs of two or more digits, in order |
| `Fingerprint.StripKeepsOthers` | scripts/generate_fingerprint_outfuncs.rb:24-46 | a stripped name consists of the characters at exactly those positions that lie in no stretch of two or more digits, in order |
| `Fingerprint.StripIdempotent` | scripts/generate_fingerprint_outfuncs.rb:26-46 | no run of digits is left, and stripping again changes nothing |
| `Fingerprint.InsertKeepsCache` | src/pg_query_fingerprint.c:188-192 | storing a list's sorted hashes keeps every cache entry equal to the sorted hashes of its list |
| `Fingerprint.NotInside` | src/pg_query_fingerprint.c:188-189 | hashing the members of a list never inserts the list itself, so `Assert(!found)` holds |
| `Fingerprint.SizesOfSorted` | src/pg_query_fingerprint.c:195-201 | the second pass costs no more than the size of the list |
| `Fingerprint.FingerprintContext.FingerprintString` | src/pg_query_fingerprint.c:81-93 | a string goes to the hash and, when tokens are written, to the token list |
| `Fingerprint.FingerprintContext.FingerprintNode` | src/pg_query_fingerprint.c:251-292 | the cached walk feeds what the reference walk feeds, keeps the cache right, adds only entries of lists below, and costs the first-visit cost or, with everything below cached, the size |
| `Fingerprint.FingerprintContext.FingerprintStep` | scripts/generate_fingerprint_outfuncs.rb:59-136 | save, feed the name, walk, compare digests, restore: the same as the reference step |
| `Fingerprint.FingerprintContext.FingerprintList` | src/pg_query_fingerprint.c:138-202 | a sorted list, cached or not, is walked as the reference walks it |
| `Fingerprint.FingerprintContext.HashItems` | src/pg_query_fingerprint.c:164-193 | what is stored for a list are the sorted hashes the reference computes for it |
| `Fingerprint.FingerprintContext.HashMembers` | src/pg_query_fingerprint.c:166-184 | each member is hashed in a fresh context that shares the cache |
| `Fingerprint.FingerprintContext.WalkSorted` | src/pg_query_fingerprint.c:195-201 | one member per hash is walked, in the order of the hashes, and nothing is added to the cache |
| `Fingerprint.PgQueryFingerprintNode` | src/pg_query_fingerprint.c:294-307 | the fingerprint is that of the reference walk, and without collisions the digest of the text of the tree, at a cost of at most size x (1 + nesting) |
| `Fingerprint.PgQueryFingerprintWithOpts` | src/pg_query_fingerprint.c:309-348 | fingerprint and tokens are those of the reference walk that writes tokens; without collisions they are the digest of the text of the tree and a spelling of it |
| `NormalizeLengths.FillInConstantLengths` | src/pg_query_normalize.c:101-203 | the records are sorted in place and get the lengths of the merge; the rest of the array is untouched |
| `NormalizeLengths.MergeLengths` | src/pg_query_normalize.c:127-200 | the loop over records and tokens computes the merge, including the exit at the end of input |
| `NormalizeLengths.Serve` | src/pg_query_normalize.c:138-193 | tokens are read up to the constant, one more after a minus sign, and the constant is measured to the end of the last one |
| `NormalizeLengths.MeasureConstant` | src/pg_query_normalize.c:175-189 | the length is that of the scanned text, less white space behind a `U&'...'` string |
| `NormalizeLengths.FilledIsRight` | src/pg_query_normalize.c:115-200 | the first record at each location gets the length a lookup on its own finds, duplicates stay at -1, no record is lost, and the measured pieces are disjoint |
| `NormalizeLengths.OnePassIsLookup` | src/pg_query_normalize.c:127-200 | the merge gives each record what looking its location up on its own gives |
| `NormalizeLengths.MergeInvariant` | src/pg_query_normalize.c:127-200 | between two records exactly the tokens of the constants served have been read, and the end is never hit |
| `NormalizeMeasured.OwnTokenIff` | src/pg_query_normalize.c:146-151 | at any point of the pass a location is served by the token it lies in if and only if the token starts there and is still unread, otherwise by a later one |
| `NormalizeMeasured.ConstLengthIff` | src/pg_query_normalize.c:175-189 | the length measured is that of all the text, or, behind `U&'` and more than four characters, the one that ends with a visible character and leaves only white space |
| `NormalizeMeasured.SpaceCodes` | src/pg_query_normalize.c:187 | white space is one of the five characters of the scanner |
| `NormalizeMeasured.OwnLengthStarts` | src/pg_query_normalize.c:146-151 | a record of the pass has the length of the token it lies in only if that token starts at its location; from inside a token the pass takes a later end |
| `NormalizeMeasured.MeasuredIff` | src/pg_query_normalize.c:127-200 | in a pass over sorted records every location gets the length of the token it lies in (to the end of the next one after a minus sign), once, if and only if every location starts a token and no number behind a recorded minus sign is recorded |
| `NormalizeMeasured.FilledIff` | src/pg_query_normalize.c:101-203 | the same for the records as the walk leaves them, however the sort orders equal locations |
| `NormalizeWitness.EscapePasswordTakesNextToken` | src/pg_query_normalize.c:362-374 | for `CREATE ROLE r PASSWORD E'a' LOGIN` the walk records a location inside the string token, which is not measured as itself: its length takes in the next keyword, and the keyword is lost |
| `NormalizeSplice.GenerateNormalizedQuery` | src/pg_query_normalize.c:236-299 | the loop runs to its end if and only if the pieces do not overlap; then the output is the query with every measured piece replaced by a dollar sign and the digits of its number, which is the id of the record or, for an id of the walk, counted from the highest outside parameter on; it has exactly the stated length, within query length + 10 x records, and is closed by a NUL |
| `NormalizeSplice.Replace` | src/pg_query_normalize.c:265-281 | one turn copies the gap and prints the parameter inside the buffer |
| `NormalizeSplice.SplicedRoundTrip` | src/pg_query_normalize.c:250-298 | putting every constant's text back in its place rebuilds the query |
| `NormalizeSplice.WholeIsAssembled` | src/pg_query_normalize.c:250-298 | read from the left, the result is gap, dollar sign and digits, gap, ... and the rest of the query; the digits denote the number of the record and have no leading zero |
| `NormalizeSplice.WrittenBound` | src/pg_query_normalize.c:239-248 | after k constants at most ten bytes each more than the query read so far are written |
| `NormalizeSplice.FitsIffDisjoint` | src/pg_query_normalize.c:256-282 | no gap has negative length if and only if the measured pieces are disjoint |
| `NormalizeSplice.NotLongerIff` | src/pg_query_normalize.c:213-214 | the result is longer than the query by the lengths of the symbols less those of the constants, so it is not longer if and only if that sum is not positive |
| `NormalizeSplice.OneBecomesLonger` | src/pg_query_normalize.c:213-214 | `SELECT 1` becomes `SELECT $1`, which is longer |
| `NormalizeSplice.NormalizeText` | src/pg_query_normalize.c:218-299 | measuring and replacing together: the lengths are the lookups, there is a result if and only if the pieces do not overlap, it is the query with every measured piece replaced by the symbol of its number, and the query can be rebuilt from it |
| `Common.DecimalAtMostTenDigits` | src/pg_query_normalize.c:239-244 | a number up to INT_MAX prints in at most ten digits |
| `Common.DigitsRoundTrip` | src/pg_query_json_plpgsql.c:11-14 | the printed digits denote the number |
| `Common.DecimalMeans` | src/pg_query_json_plpgsql.c:11-14 | a printed number is its digits, behind a minus sign if it is negative |
| `NormalizeWalk.QuoteFrom` | src/pg_query_normalize.c:366-371 | the first quote from a position on, or the end of the query |
| `NormalizeWalk.FindQuote` | src/pg_query_normalize.c:362-374 | a quote is found only inside the query, at or behind the location, also when the location is unknown and the search begins one byte ahead of the query |
| `NormalizeWalk.Find` | src/pg_query_normalize.c:457-463 | the first remembered element with the fingerprint |
| `NormalizeTally.WalkTallies` | src/pg_query_normalize.c:334-523 | from any state a walk appends as many constants, moves the id counter as far, remembers as many references and sees as high a parameter as the sum of the tree says; the ids stay without gap unless a kept constant comes late, and then two are equal or one is no id; every id handed out stays held |
| `NormalizeTally.LendTallies` | src/pg_query_normalize.c:469-474 | lending references renumbers the constants of the item and leaves the ids that others keep as they were; the counter goes back by their number |
| `NormalizeMarks.TreeMeets` | src/pg_query_normalize.c:334-523 | a walk of a tree records exactly the marked places of the tree, in order and unmeasured: the constants with a known location and the first quotes behind DefElems with a string, but not an integer that stands by itself in a GROUP BY or ORDER BY list; the highest outside parameter is the greatest one that occurs anywhere in the tree |
| `NormalizeMarks.WalkMeets` | src/pg_query_normalize.c:334-523 | the same for a walk from any state |
| `NormalizeMarks.OutsideIffParam` | src/pg_query_normalize.c:344-361 | a parameter is met on the walk if and only if it occurs in the tree |
| `NormalizeRefs.WalkIsPlain` | src/pg_query_normalize.c:301-361 | without a SELECT that has a target list every marked constant gets the next id, and while references are remembered each mark leaves one: an outside parameter its number, a constant its id |
| `NormalizeRefs.SumsCountMarks` | src/pg_query_normalize.c:334-523 | the counts of constants and references computed for a tree are those of its marks, with no references where a SELECT in it switches recording off |
| `NormalizeRefs.TableOfMarks` | src/pg_query_normalize.c:403-427 | of each target element the fingerprint of its value and the references of its marks are remembered |
| `NormalizeRefs.AgreesIff` | src/pg_query_normalize.c:454-475 | a GROUP BY item takes the references of the element it is matched with if and only if it has as many constants as the element left references |
| `NormalizeRefs.TakenIds` | src/pg_query_normalize.c:437-475 | then its constants end with these references, one by one, in order |
| `NormalizeTheorems.OwnParametersIff` | src/pg_query_normalize.c:301-332 | every constant that keeps its own id becomes an offset parameter that no other such constant becomes, and the ids have no gap, if and only if none of them is recorded after a doubled item, a condition on the tree and its fingerprints |
| `NormalizeTheorems.IdsExactIff` | src/pg_query_normalize.c:301-332 | the fresh ids of a tree are exactly 1 .. highest - 1, in order, if and only if no GROUP BY item in it takes the references of its match although the item itself gives ids back, a condition on the tree and its fingerprints |
| `NormalizeSums.LateIff` | src/pg_query_normalize.c:403-485 | a list of parts is late exactly when one of them is, or keeps a constant after a part that doubles |
| `NormalizeSums.DoublesIff` | src/pg_query_normalize.c:437-475 | a tree doubles exactly when a child does, or a GROUP BY item that agrees with its match gives ids back |
| `NormalizeSums.BackNeedsSelect` | src/pg_query_normalize.c:437-475 | only a SELECT with a target list gives ids back |
| `NormalizeSums.SelectForgets` | src/pg_query_normalize.c:403-427 | a SELECT with a target list inside an element switches the recording of its references off |
| `NormalizeTheorems.DiscerningNeverDoubles` | src/pg_query_normalize.c:437-475 | that never happens where a matched item contains a SELECT only if its target element does |
| `NormalizeTheorems.NoSelectIsDiscerning` | src/pg_query_normalize.c:437-475 | in particular not where GROUP BY items contain no SELECT |
| `NormalizeTheorems.FreshNumbering` | src/pg_query_normalize.c:315-320 | the k-th constant that takes nothing over holds id k, when nothing comes late |
| `NormalizeTheorems.SharingNeedsReuse` | src/pg_query_normalize.c:469-474 | two constants hold the same id only if one took it over, when nothing comes late (otherwise OwnParametersIff gives two, or one without an id) |
| `NormalizeTheorems.ReusedIdsAreHeld` | src/pg_query_normalize.c:469-474 | whatever doubles, a fresh id that a constant holds is held by a constant as its own |
| `NormalizeSymbols.TakenIsParam` | src/pg_query_normalize.c:469-474 | a constant that took over no id of another constant took over a parameter that occurs in the tree, when nothing comes late |
| `NormalizeSymbols.SymbolIsRight` | src/pg_query_normalize.c:274-276 | when nothing comes late, the slot of the k-th constant with an id of its own holds a dollar sign and the digits of k plus the greatest parameter of the tree; one that took over an outside parameter holds that parameter, one that took over an id the symbol of the constant that holds it |
| `NormalizeSymbols.TextIsTold` | src/pg_query_normalize.c:218-299 | so the whole text is the query with each measured constant replaced by the right symbol |
| `NormalizeSymbols.NothingTakenSymbols` | src/pg_query_normalize.c:301-332 | where no GROUP BY item takes anything over, nothing comes late and the i-th marked constant of the tree gets the i-th number after the greatest parameter |
| `NormalizeSymbols.SmallNumbersFit` | src/pg_query_normalize.c:274-278 | when nothing comes late, the numbers fit an int if the greatest parameter and the number of marked constants do together |
| `NormalizeSymbols.MarksInside` | src/pg_query_normalize.c:301-332 | if the marked places lie in the query, so do the recorded locations |
| `NormalizeTheorems.FreshAboveParams` | src/pg_query_normalize.c:274-276 | when nothing comes late, the parameter of every constant that keeps its own id is greater than every parameter number in the tree, also those visited later |
| `NormalizeTheorems.OffsetAboveParams` | src/pg_query_normalize.c:274-276 | in any case an offset number is greater than every parameter number in the tree |
| `NormalizeSums.ParamsCovered` | src/pg_query_normalize.c:346-350 | the highest parameter in the sum covers every parameter of the tree |
| `NormalizeGroup.MatchInjective` | src/pg_query_normalize.c:454-463 | over a whole GROUP BY list no two items are matched with the same target element |
| `NormalizeGroup.FoundIsMatch` | src/pg_query_normalize.c:454-463 | the search of the shrinking list finds for every item the element it is matched with |
| `NormalizeGroup.EntriesLeft` | src/pg_query_normalize.c:454-463 | after k items exactly the elements not yet taken are left, in order |
| `NormalizeTally.GroupListReuse` | src/pg_query_normalize.c:437-475 | in a whole list every item that takes references keeps them, constant by constant, and the counter goes back where it was unless the item gives ids back itself |
| `NormalizeWitness.DeepCallsShare` | src/pg_query_normalize.c:454-474 | with the fingerprint of the walk, cut at depth 100, and no digest collision, a concrete statement in which two constants share a parameter that neither took over |
| `NormalizeWitness.DeepCallsGiveZero` | src/pg_query_normalize.c:454-474 | likewise a statement in which a constant that took nothing over becomes `$0` |
| `NormalizeWitness.DeepCallsAlone` | src/pg_query_normalize.c:454-474 | likewise a statement with a doubled item in which every constant that keeps its id has its own parameter |
| `Normalize.ConstLocations.RecordConstLocation` | src/pg_query_normalize.c:301-332 | the constant is appended with the next id, within the growing arrays |
| `Normalize.ConstLocations.RecordParamRef` | src/pg_query_normalize.c:346-361 | the highest number is kept and the reference remembered |
| `Normalize.ConstLocations.Walker` | src/pg_query_normalize.c:334-523 | the walk in place does what the walk on states does, never writing outside its arrays |
| `Normalize.ConstLocations.WalkTargetElement` | src/pg_query_normalize.c:403-427 | each target element is walked with a recording of its own |
| `Normalize.ConstLocations.WalkGroupClause` | src/pg_query_normalize.c:437-475 | simple integers are skipped, matches consumed, references lent |
| `Normalize.ConstLocations.LendRefs` | src/pg_query_normalize.c:469-474 | the ids recorded since a point are overwritten when their number is that of the references |
| `Normalize.ConstLocations.WalkSortClause` | src/pg_query_normalize.c:476-485 | the ORDER BY items are walked except simple integers; NormalizeMarks.TreeMeets says which constants that leaves out |
| `Normalize.PgQueryNormalize` | src/pg_query_normalize.c:525-560 | there is a result if and only if the measured pieces do not overlap, which holds when the recorded locations start tokens; the pieces measured are the marked places of the tree; the result is the query with every measured piece replaced by its symbol, when nothing comes late by the right one, and the query can be rebuilt from it |
| `Json.TextReadsBackIff` | src/pg_query_outfuncs_json.c:23-119 | the reference parser reads a value back from its compact text if and only if every character printed without escaping may stand in a string |
| `Json.EscapeTable` | src/pg_query_json_helper.c:29-58 | seven characters have an escape of two characters, the other control characters and the angle brackets one by code, and all others stand for themselves |
| `Json.CharsRoundTrip` | src/pg_query_json_helper.c:23-60 | a string escaped character by character is read back |
| `JsonWriter.TrimLast` | src/pg_query_json_helper.c:5-12 | trimming removes the last separator, and after an opening bracket nothing |
| `JsonWriter.TextEnd` | src/pg_query_json_helper.c:5-12 | no value ends with a comma, so trimming never removes content |
| `JsonWriter.StringInfo.RemoveTrailingDelimiter` | src/pg_query_json_helper.c:5-12 | the buffer without its last character if that is a comma |
| `JsonWriter.StringInfo.OutToken` | src/pg_query_json_helper.c:14-61 | appends null or the string in JSON form |
| `JsonWriter.StringInfo.OutChar` | src/pg_query_json_helper.c:29-58 | appends one character, escaped where needed |
| `JsonReader.NodeReadBack` | src/pg_query_outfuncs_json.c:27-119 | from the value of a node the reader, guided by the types of the fields, gets every field of every node below back |
| `JsonReader.DocumentReadBack` | src/pg_query_outfuncs_json.c:262-297 | the same for the statements of a document of version 130003 |
| `JsonReader.StructShows` | src/pg_query_outfuncs_json.c:27-119 | the object of a struct has its tag as only member, and in it a member for exactly those fields that do not hold their default |
| `OutfuncsJson.OutNode` | src/pg_query_outfuncs_json.c:236-260 | appends the text of the node's JSON value |
| `OutfuncsJson.OutField` | src/pg_query_outfuncs_json.c:27-119 | appends the field as a member, or nothing when it holds its default; JsonReader.NodeReadBack says that the member holds the field |
| `OutfuncsJson.OutItems` | src/pg_query_outfuncs_json.c:134-155 | appends the items with commas between them, empty objects for NULL |
| `OutfuncsJson.OutPart` | src/pg_query_outfuncs_json.c:105-119 | appends a struct without its tag |
| `OutfuncsJson.NodesToJson` | src/pg_query_outfuncs_json.c:262-297 | the reference parser reads the intended document from the output if and only if every single-character field holds a character that may stand in a string; then, under any table of field types that fits the statements, the reader gets exactly the statements back from what was parsed |
| `JsonTrees.NodeOkIff` | src/pg_query_outfuncs_json.c:45-49 | the value of a node can be read back exactly when its single-character fields, at any depth, hold such characters |
| `PlpgsqlJson.Dump` | src/pg_query_json_plpgsql.c:238-249 | after trimming, exactly the inner object of the node is left open |
| `PlpgsqlJson.OneObjectOpen` | src/pg_query_json_plpgsql.c:54-60 | one brace closes what a dump function leaves open, two make it the node's text |
| `PlpgsqlJson.TrimAgain` | src/pg_query_json_plpgsql.c:248 | trimming a second time removes nothing |
| `PlpgsqlJson.DumpClosed` | src/pg_query_json_plpgsql.c:140-236 | appends the node's text and a comma |
| `PlpgsqlJson.WriteNodes` | src/pg_query_json_plpgsql.c:62-85 | appends a list member, empty or not |
| `PlpgsqlJson.WriteObj` | src/pg_query_json_plpgsql.c:54-60 | appends a struct member |
| `PlpgsqlJson.OutColumn` | src/pg_query_json_plpgsql.c:749-760 | appends a row's field, null when it has no name |
| `PlpgsqlJson.DumpFunction` | src/pg_query_json_plpgsql.c:645-690 | after trimming, the function's inner object is left open with all its members |
| `PlpgsqlJson.ToJson` | src/pg_query_json_plpgsql.c:791-806 | the reference parser accepts the output, and reads the intended value, if and only if every datum is of a printed kind; then the reader gets exactly the function back from what was parsed |
| `PlpgsqlJson.KnownText` | src/pg_query_json_plpgsql.c:657-687 | with recognised datums the text is that of the intended value |
| `PlpgsqlJson.RefusedText` | src/pg_query_json_plpgsql.c:679-684 | with another datum the text is no JSON |
| `PlpgsqlReader.FunctionReadBack` | src/pg_query_json_plpgsql.c:645-690 | from the value of a function the reader gets back its numbers, its datums, and every field of every statement |
| `PlpgsqlReader.DefaultShowsNothing` | src/pg_query_json_plpgsql.c:16-52 | a field leaves no member exactly when it holds its default |
| `Protobuf.EnumRoundTrip` | src/pg_query_enum_defs.c:867-889 | the code tables are inverse, and a code survives exactly when it is in the table |
| `Protobuf.CarriesIff` | src/pg_query_outfuncs_protobuf.c:24-202 | the message written is the one message that holds the node: numbers, flags and texts as they are, a kind by its place in the declaration, and the same of everything below |
| `Protobuf.RoundTrip` | src/pg_query_outfuncs_protobuf.c:185-202 | reading what was written gives the tree with empty field strings turned to NULL, list order and NULL items kept, and no error |
| `Protobuf.RoundTripIff` | src/pg_query_readfuncs_protobuf.c:15-118 | reading gives the same tree if and only if no field holds an empty string, no list node is empty and every struct is known |
| `Protobuf.SettledTwice` | src/pg_query_readfuncs_protobuf.c:26-29 | a tree that was written and read once stays as it is |
| `Protobuf.FieldRoundTrip` | src/pg_query_readfuncs_protobuf.c:15-73 | every READ macro undoes its WRITE macro |
| `Protobuf.OutNode` | src/pg_query_outfuncs_protobuf.c:185-202 | fills the message with what is specified for the node |
| `Protobuf.OutItems` | src/pg_query_outfuncs_protobuf.c:102-116 | fills the array of messages slot by slot |
| `Protobuf.OutField` | src/pg_query_outfuncs_protobuf.c:24-98 | fills a field from its default |
| `Protobuf.ReadNode` | src/pg_query_readfuncs_protobuf.c:90-118 | reads a message, or fails on an unsupported type |
| `Protobuf.ReadNodes` | src/pg_query_readfuncs_protobuf.c:80-88 | reads the items in order, failing at the first that cannot be read |
| `Protobuf.ReadField` | src/pg_query_readfuncs_protobuf.c:15-73 | reads a field into a zeroed node |
| `Protobuf.NodesToProtobuf` | src/pg_query_outfuncs_protobuf.c:204-229 | every statement is written, in order, as the message that holds it |
| `Protobuf.ProtobufToNodes` | src/pg_query_readfuncs_protobuf.c:120-142 | every statement is read, in order, if and only if all can be read |
| `Protobuf.WriteAndRead` | src/pg_query_readfuncs_protobuf.c:120-142 | the statements come back the same if and only if no field anywhere holds an empty string (or an empty list node or an unknown struct) |
| `Splitter.Split` | src/pg_query_split.c:83-119 | the second pass fills every slot once: the array holds every statement of the text, each once and in order |
| `Splitter.CountStatements` | src/pg_query_split.c:56-79 | the first pass counts the tokens with which a statement ends |
| `Splitter.StatementsAreSegments` | src/pg_query_split.c:83-119 | the ranges are exactly the stretches between two neighbouring semicolons (or the start or end of the text) before which as many parentheses were closed as opened, modulo 2^64, that contain a keyword |
| `Splitter.DepthCounts` | src/pg_query_split.c:64-71 | the depth counter holds the number of left less that of right parentheses so far, modulo 2^64 |
| `Splitter.StatementsTold` | src/pg_query_split.c:56-119 | the list of statements holds each once, in order, and one for each token with which a statement ends |
| `Splitter.StatementsInOrder` | src/pg_query_split.c:101-116 | they lie in the input, in order and apart |
| `Splitter.SplitAgain` | src/pg_query_split.c:56-119 | splitting the text of one statement gives it back as the only statement |
| `Splitter.KeywordNext` | src/pg_query_split.c:95-116 | the keyword flag says whether the current segment has a keyword |
| `SymbolClosure.ResolveRoots` | scripts/extract_source.rb:278-348 | without an exit, exactly the reachable symbols are put out or unresolved, with one call for each; the script exits only at the end of a trail of different symbols, at one it cannot visit or below more than 100 others; where no trail is that long, and where at most 100 symbols are reachable, it exits if and only if a reachable symbol is blocked or without analysis |
| `SymbolClosure.Runner.DeepResolve` | scripts/extract_source.rb:278-348 | a call processes its symbol and everything it newly marks, or the script exits at the end of a trail on which no symbol below the root comes twice |
| `SymbolClosure.Runner.Enter` | scripts/extract_source.rb:318-330 | the new dependents are marked before any is visited |
| `SymbolClosure.Runner.NewDependents` | scripts/extract_source.rb:319-326 | no dependent left is marked, and every other reference is |
| `SymbolClosure.ProcessedIsReachable` | scripts/extract_source.rb:278-348 | a traversal closed under references has processed exactly what is reachable |
| `SymbolClosure.FewSymbolsShortTrails` | scripts/extract_source.rb:278-292 | with at most 100 reachable symbols no trail is longer than the depth limit |
| `SymbolClosure.KidsRight` | scripts/extract_source.rb:319-326 | references are told apart by name space, each kept once |
| `SymbolClosure.SuccessorsIff` | scripts/extract_source.rb:294-320 | the symbols visited from a symbol are those that its text refers to, if it is not mocked and its place is known: the file-local one of that name when its base file has one |
| `SymbolClosure.PlaceIff` | scripts/extract_source.rb:294-308 | a symbol is put out under the file that the analysis of its base file names |

## Left out

- The relational-algebra optimizer: its bodies are not part of this model.
- The PostgreSQL grammar and scanner: trees and token streams are inputs. What they promise is stated where it is used: increasing token starts, tokens that begin with no white space, recorded locations inside the query.
- XXH3, `pg_qsort` and the hash table behind the cache: any digest, any sort by hash, a map.
- In the results about normalization the fingerprint is any function of a node of the tree that normalization walks, in which `detail` stands for everything the walk does not look at; only `NormalizeWitness` uses the fingerprint model, on trees of the same shape made of function calls and SELECTs.
- Memory contexts, error objects, stderr pipes and packing of messages: plumbing.
- Which fields each of the 200 struct types has: a struct is a tag and its fields in order, for the readers with a table of field kinds.
- Fields of floating-point type, Bitmapset fields, and the struct that CREATE FOREIGN TABLE embeds: modelled in the fingerprint, where the text that `%f` gives is an input, and not in the JSON and protobuf printers.
- IntList and OidList in protobuf: the writer treats their integers as nodes and the reader refuses them.
- The branches for unrecognised node tags in the fingerprint and in the JSON writer for parse trees: a warning, and nothing or an empty object.
- `const_record_walker` never returns true; its early returns are therefore not modelled, and `query_loc` is always 0.
- `Normalize.ConstLocations.Walker`: the byte that the search for a quote reads ahead of the query, when a location is unknown, is an input.
- `Fingerprint.PgQueryFingerprintNode`: requires every list pointer to occur once in the tree, which the parser guarantees; on trees that share a list between two fields a cache entry could be used at another depth.
- `Protobuf.NodesToProtobuf`: messages are values, so that the writer's sharing of value strings with the tree is not captured.
- `SymbolClosure.Runner.DeepResolve`: the list of include files and the rewriting of the sources are not modelled.
- `Splitter.SplitAgain`: takes the tokens of the statement's text to be those of the whole text, moved.
- Header scraping by regular expressions, the generators themselves, the C++ protobuf variant and the deparser.
