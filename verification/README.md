# AR code navigator: class-structure extraction and node placement

This project models two parts of the AR code navigator.

The first is the heuristic class-structure extractor. `parseCode` splits OCR text into lines. It spots class declarations with the fixed pattern `(^class|\sclass)\s+\w+(\s|\()+`. For each new class it records at most one parent, found by a per-language finder. It credits the current class with every already-known class name that a later line mentions, unless the mention looks like a call. The report (`CodeData.toString`, and the plain text of `formattedText`) lists one block per class. The model covers all three copies: the shared `utils` copy, the Android copy, and the desktop copy with its differently written finders. For the Android copy the claim is limited to ASCII text (see "## Left out").

The second is the bookkeeping of `ARFragment.renderCodeModels`. Each newly seen class gets a slot from a rotation table. On each call, a class gets one name-keyed marker for its first parent (`parent-X`) and one for its first reference (`ref-X`). Each marker has at most one `…-connection` node, which is deferred until the target class has a slot. Markers from earlier calls stay, so a class whose first reference changes between calls keeps both `ref-A` and `ref-B`.

Modules:

- `Outcomes`: `Option`, `Result`, and the two Kotlin exceptions the core can raise.
- `Text`: `indexOf`, `substring`, `trim`, `removeSuffix`, `lowercase` and `split('\n')`.
- `Orders`: `HashMap` and `HashSet` iteration orders, taken as parameters.
- `Graph`: `CodeData` / `ClassData`.
- `Declaration`: the class pattern and the name cut out of a match.
- `Dialects`: language selection and the six parent finders.
- `Extraction`: `parseCode`.
- `Report`: the report text and a reader that recovers the graph from it.
- `Samples`: the Kotlin container sample.
- `SampleBodyText`: the sample's body line, whose characters are checked apart from the parsing modules.
- `Placement`: `renderCodeModels`.

Design decisions:

- A call of `parseCode` that raises an exception ends as `Threw(graph, error)`. The graph is kept as mutated up to the throw: the new class is already inserted, because insertion happens before the language check and before the finder runs.
- `HashMap` key order is a `KeyOrder`. This is a function of the insertion history that returns a permutation of the keys.
- `HashSet` order is a `SetOrder`. This is a function of the set's contents that lists each element once.
- Positions are integers. `x` and `y` count multiples of `_shapePadding`, and `z` counts hundredths.

## Model

| member | source | states |
|---|---|---|
| Text.IndexOf | utils/src/main/kotlin/CodeData.kt:36 | `indexOf(sub)` is -1 exactly when `sub` does not occur. Otherwise it is the first position where `sub` occurs. |
| Text.IndexOfChar | utils/src/main/kotlin/CodeData.kt:64-65 | `indexOf(c, from)` is -1 exactly when no `c` occurs at or after `from`. Otherwise it is the first such position. |
| Text.Substring | utils/src/main/kotlin/CodeData.kt:40 | `substring(begin, end)` succeeds exactly when `0 <= begin <= end <= length`, and then holds those characters. Otherwise it raises `StringIndexOutOfBounds` with the indices, which is the `substring(i, -1)` case. |
| Text.TrimStart | utils/src/main/kotlin/CodeData.kt:78 | Drops exactly the leading whitespace. What remains is a suffix that starts with a non-whitespace character or is empty. |
| Text.TrimEnd | utils/src/main/kotlin/CodeData.kt:78 | Drops exactly the trailing whitespace. What remains is a prefix that ends with a non-whitespace character or is empty. |
| Text.RemoveSuffix | utils/src/main/kotlin/CodeData.kt:78 | `removeSuffix`: the result plus the suffix gives back the string whenever it ends with the suffix. Otherwise the string is unchanged. |
| Text.LowerSpells | utils/src/main/kotlin/CodeData.kt:83-84 | For a word `w` of lower-case letters and `+`, `s.lowercase() == w` holds exactly when `s` has `w`'s length and spells it letter by letter: each character is the letter itself, its ASCII capital, or the Kelvin sign for `k`. |
| Text.SplitLines | utils/src/main/kotlin/CodeData.kt:73 | `split('\n')` gives at least one piece. No piece holds a newline, and joining the pieces with newlines gives back the text. |
| Text.SplitJoin | utils/src/main/kotlin/CodeData.kt:73 | Splitting newline-free lines joined by newlines gives back exactly those lines, the inverse direction of `SplitLines`. |
| Text.SplitAround | utils/src/main/kotlin/CodeData.kt:73 | Splitting `a + "\n" + b` gives the pieces of `a` followed by the pieces of `b`. |
| Declaration.MatchAt | utils/src/main/kotlin/CodeData.kt:1 | A match is found at position `s` exactly when the pattern can match there. The match found takes each run greedily. |
| Declaration.Find | utils/src/main/kotlin/CodeData.kt:75 | `find` succeeds exactly when the pattern matches somewhere. It reports the leftmost start, and no earlier position matches. |
| Declaration.DeclaredName | utils/src/main/kotlin/CodeData.kt:75-78 | A line declares a class exactly when the pattern matches. The name is cut from the leftmost match. |
| Declaration.KeywordOffset | utils/src/main/kotlin/CodeData.kt:78 | Inside the matched text, `indexOf("class")` finds the keyword the match started with, including after a leading whitespace character. |
| Declaration.DroppedText | utils/src/main/kotlin/CodeData.kt:78 | The name is the matched text after the keyword, trimmed, with one trailing `(` removed. |
| Declaration.NameShape | utils/src/main/kotlin/CodeData.kt:78 | The name runs from the start of the `\w+` token to an end `e`. `e` is either the token's end, or a `(` of the following run after which only whitespace remains. |
| Declaration.NameIsToken | utils/src/main/kotlin/CodeData.kt:78 | The name always begins with the `\w+` token. It is exactly the token unless a `(` occurs in the trailing run after the run's first character, so `class Circle(` still names `Circle`. |
| Declaration.GreedyIsUnique | utils/src/main/kotlin/CodeData.kt:1 | At a given start there is only one greedy match. |
| Declaration.MatchAtStart | utils/src/main/kotlin/CodeData.kt:75 | A greedy match at the start of the line is the one `find` returns. |
| Declaration.DeclarationAtStart | utils/src/main/kotlin/CodeData.kt:1 | `class`, whitespace, a word and a run of whitespace or `(` at the start of a line form a declaration. The name comes from that word. |
| Declaration.BareClassIsNotDeclaration | utils/src/main/kotlin/CodeData.kt:1 | `class Foo` with nothing after it does not match, because the pattern needs a character after the name. |
| Declaration.KotlinConstructorName | assets/kotlin-code-sample/Circle.kt:3 | `class Circle(` followed by anything that does not start with whitespace or `(` declares exactly `Circle`, without the parenthesis. |
| Declaration.NoKeywordNoDeclaration | utils/src/main/kotlin/CodeData.kt:1 | A line without `class` declares nothing. |
| Declaration.NameFromLine | utils/src/main/kotlin/CodeData.kt:78 | Every character of the name is a character of the line. |
| Dialects.SelectDialect | android-app/app/src/main/java/com/ar/codenavigator/utils/CodeData.kt:105-110 | The finder is chosen by the lower-cased language: `cpp` or `c++` give C++, `java` gives Java, `kotlin` gives Kotlin, and nothing else selects a finder. |
| Dialects.SelectBySpelling | utils/src/main/kotlin/CodeData.kt:83-87 | `kotlin`, `java`, and `cpp` or `c++` select their finder exactly when the language is that word spelled in any letter case, the Kelvin sign standing for `k`. Every other string selects none. |
| Dialects.SelectIgnoresCase | utils/src/main/kotlin/CodeData.kt:83 | Selection depends only on the lower-cased name. |
| Dialects.SelectExamples | utils/src/main/kotlin/CodeData.kt:83-87 | `Kotlin`, `C++`, `CPP` and `JAVA` are supported. `python` is not. |
| Dialects.TextUpTo | utils/src/main/kotlin/CodeData.kt:40 | The text from `start` up to the next stop character succeeds exactly when such a character exists, and the text holds no stop character. Otherwise it raises the exception for `substring(start, -1)`. |
| Dialects.CppParent | utils/src/main/kotlin/CodeData.kt:32-41 | `public ` is checked before `private `. The parent runs from just after the marker up to the next space. There is no parent exactly when neither marker occurs. |
| Dialects.JavaParent | android-app/app/src/main/java/com/ar/codenavigator/utils/CodeData.kt:65-72 | The parent is the text after the first `extends ` up to the next space. There is no parent exactly when `extends ` does not occur. |
| Dialects.KotlinParent | utils/src/main/kotlin/CodeData.kt:52-60 | ` : public ` is checked before `) : `. There is no parent exactly when neither marker occurs. |
| Dialects.KotlinTail | utils/src/main/kotlin/CodeData.kt:61-67 | After the marker, the parent ends at the first `(` if there is one, else at the next space. It fails when there is neither. |
| Dialects.DesktopCppParent | desktop-app/src/main/kotlin/CodeData.kt:18-25 | The desktop C++ finder matches `public` / `private` without a trailing space and starts the parent one character after the keyword. |
| Dialects.DesktopJavaParent | desktop-app/src/main/kotlin/CodeData.kt:28-34 | The desktop Java finder matches `extends`, skips one character, and reads up to the next space. |
| Dialects.DesktopKotlinParent | desktop-app/src/main/kotlin/CodeData.kt:37-43 | The desktop Kotlin finder recognises only `) : ` and always ends the parent at the next `(`, failing when there is none. |
| Dialects.CppPublic | utils/src/main/kotlin/CodeData.kt:32-41 | On any line whose first `p` begins `public `, the shared C++ finder reports exactly the word after the marker. |
| Dialects.CppSkipsFirst | utils/src/main/kotlin/CodeData.kt:36-40 | A first `public` followed by another character is passed over, and the word after the next `public ` is reported. |
| Dialects.DesktopCppAfter | desktop-app/src/main/kotlin/CodeData.kt:18-25 | After the first `public`, the desktop finder skips one character, whatever it is, and reports the text up to the next space. |
| Dialects.JavaExtends | android-app/app/src/main/java/com/ar/codenavigator/utils/CodeData.kt:65-72 | On any line whose first `x` is the one in `extends `, the Java finder reports exactly the word after the marker. |
| Dialects.KotlinColonParen | utils/src/main/kotlin/CodeData.kt:52-67 | On a line `head) : parent(rest` with no `p`, the shared Kotlin finder reports the text between the marker and the `(`. |
| Dialects.KotlinColonSpace | desktop-app/src/main/kotlin/CodeData.kt:37-43 | On a line `head) : parent rest` with no `p` and no `(` after the marker, the shared finder reports `parent` and the desktop finder throws. |
| Dialects.ParentFromLine | utils/src/main/kotlin/CodeData.kt:40 | Every character of a reported parent is a character of the line. |
| Dialects.FindParent | utils/src/main/kotlin/CodeData.kt:83-88 | Whatever the variant and the dialect, a reported parent is a stretch of the line that ends just before a space or a `(`. |
| Dialects.CppVariantsAgree | desktop-app/src/main/kotlin/CodeData.kt:18-25 | When the first `public` (or `private`) is followed by a space, the desktop and shared C++ finders agree. |
| Dialects.JavaVariantsAgree | desktop-app/src/main/kotlin/CodeData.kt:28-34 | When the first `extends` is followed by a space, the desktop and shared Java finders agree. |
| Dialects.KotlinVariantsAgree | desktop-app/src/main/kotlin/CodeData.kt:37-43 | Without ` : public `, and with a `(` after `) : `, the desktop and shared Kotlin finders agree. |
| Dialects.KotlinVariantsDiffer | desktop-app/src/main/kotlin/CodeData.kt:42 | With no `(` after the parent, the shared Kotlin finder stops at the space, while the desktop one throws. |
| Dialects.CppTriangle | desktop-app/assets/cpp-code-sample/Triangle.hpp:3 | `class Triangle : public Shape {` inherits from `Shape`. |
| Dialects.DesktopCppCircle | desktop-app/assets/cpp-code-sample/Circle.hpp:3 | Both C++ finders give `Shape` for `class Circle : public Shape {`. |
| Dialects.DesktopCppInsideWord | desktop-app/src/main/kotlin/CodeData.kt:20 | The desktop finder takes the `public` inside `Republican`, so the parent it reports is `n`. |
| Dialects.CppSkipsWord | utils/src/main/kotlin/CodeData.kt:36 | The shared finder passes over `Republican` and reports `State`. |
| Dialects.CppEmptyParent | android-app/app/src/main/java/com/ar/codenavigator/utils/CodeData.kt:54-63 | A double space after `public ` yields the empty parent name. |
| Dialects.CppParentAtEnd | utils/src/main/kotlin/CodeData.kt:40 | With no space after the parent, the finder raises `StringIndexOutOfBounds(i, -1, length)` instead of returning null. |
| Dialects.JavaSquare | desktop-app/assets/java-code-sample/RectangleAndSquare.java:23 | `class Square extends Rectangle {` inherits from `Rectangle`. |
| Dialects.KotlinSquare | desktop-app/assets/kotlin-code-sample/RectangleAndSquare.kt:7 | `class Square(sideLength: Double) : Rectangle(…)` inherits from `Rectangle`. |
| Graph.Insert | utils/src/main/kotlin/CodeData.kt:80 | Inserting a new class appends it to the key history with empty sets, and the history still lists the keys once each. |
| Graph.AddParent | utils/src/main/kotlin/CodeData.kt:90 | Adds one parent to one class and changes nothing else. |
| Graph.AddRefs | utils/src/main/kotlin/CodeData.kt:111 | Adds references to one class and changes nothing else. |
| Extraction.Classify | utils/src/main/kotlin/CodeData.kt:83-88 | A line's parent result is `UnsupportedLanguage` when no finder is selected, else the selected finder's result. Its name is the declared name. |
| Extraction.ClassifyAll | utils/src/main/kotlin/CodeData.kt:73-75 | Each line is classified on its own. Newline-free texts give lines whose names and parents are cut from their own text. |
| Extraction.ScanRefs | utils/src/main/kotlin/CodeData.kt:103-113 | Every added name is a known name whose first occurrence is not followed by `(`. |
| Extraction.ScanRefsSpec | utils/src/main/kotlin/CodeData.kt:103-113 | A name is added exactly when it occurs, its first occurrence is not a call, and the loop reached it, meaning no earlier-visited name was a call. |
| Extraction.NoCallAddsAllMentioned | utils/src/main/kotlin/CodeData.kt:103-111 | On a line where no name is called, exactly the names that occur are added. |
| Extraction.CallHidesLaterNames | utils/src/main/kotlin/CodeData.kt:108-109 | A call hides names visited after it, and only those. The set added depends on the map's order. |
| Extraction.FirstMentionAt | utils/src/main/kotlin/CodeData.kt:104-109 | A name whose first character does not occur before it is mentioned there, and that mention counts as a call exactly when `(` follows it. |
| Extraction.AddShapeLineAddsNothing | desktop-app/assets/java-code-sample/text/ShapeContainer.java:6 | `void addShape(` followed by any text without `C` adds nothing in either key order, because the first `Shape` is the tail of `addShape(`. |
| Extraction.FieldLineAddsShape | desktop-app/assets/java-code-sample/text/ShapeContainer.java:4 | `private List<Shape` followed by any text without `C` that does not start with `(`, as in `private List<Shape> shapes`, adds exactly `Shape` in either key order. |
| Extraction.Declare | utils/src/main/kotlin/CodeData.kt:79-96 | A known class becomes current again without any change. A new class is inserted first, then gets the parent reported, or the call throws with the class already inserted. |
| Extraction.Adopt | utils/src/main/kotlin/CodeData.kt:83-91 | A non-null parent is added to the new class's set, a null parent adds nothing, and an exception stops the call. |
| Extraction.Refer | utils/src/main/kotlin/CodeData.kt:103-113 | A reference line adds only to references. Keys and parents stay, and `parsedCode` only turns on. |
| Extraction.ParseLine | utils/src/main/kotlin/CodeData.kt:74-113 | One loop iteration. Declarations set the current class and the return flag. Lines before any declaration change nothing. Only a new class whose parent result is an exception stops the call. |
| Extraction.ParseLines | utils/src/main/kotlin/CodeData.kt:74-114 | The loop only grows the graph: no key or set element is removed, and the key history stays exact. |
| Extraction.ParseCode | utils/src/main/kotlin/CodeData.kt:70-117 | `parseCode` only grows the graph, whether it completes or throws. |
| Extraction.ParseLinesKeep | utils/src/main/kotlin/CodeData.kt:79-92 | First declaration wins: the parent sets of classes already known are never changed, no class gets a second parent, references stay among known classes, and names stay newline-free. |
| Extraction.ParseCodeKeeps | desktop-app/src/main/kotlin/CodeData.kt:55-68 | The same four invariants for a whole call. |
| Extraction.ParsedIffDeclared | utils/src/main/kotlin/CodeData.kt:71-116 | The loop returns true exactly when a declaration line was met, because a reference can be added only after a declaration has already set the flag. |
| Extraction.ParseCodeResult | utils/src/main/kotlin/CodeData.kt:116 | A completed call returns true exactly when some line of the text declares a class. |
| Extraction.LeadingLinesSkipped | utils/src/main/kotlin/CodeData.kt:98-100 | Lines before the call's first declaration are ignored, whatever the graph already holds. |
| Extraction.FirstNewClassThrows | utils/src/main/kotlin/CodeData.kt:79-88 | When the first declaration names a new class and its parent result is an exception, the call throws with that class inserted and nothing else changed. |
| Extraction.UnsupportedLanguageAtFirstDeclaration | android-app/app/src/main/java/com/ar/codenavigator/utils/CodeData.kt:101-110 | With an unsupported language, a first declaration of a new class throws `UnsupportedLanguage` after inserting that class. |
| Extraction.ThrowsIffNewClass | android-app/app/src/main/java/com/ar/codenavigator/utils/CodeData.kt:101-110 | When every line's finder result is the same exception, the loop throws exactly when a new class is declared. The thrown graph then has one key more. |
| Extraction.UnsupportedLanguageThrows | desktop-app/src/main/kotlin/CodeData.kt:56-64 | With an unsupported language, a call throws exactly when its text declares a class not yet in the graph, and then with exactly one class added. |
| Extraction.KnownClassesIgnoreParents | utils/src/main/kotlin/CodeData.kt:79-96 | When every declared class is already known, the finder results are never consulted. |
| Extraction.KnownClassesIgnoreLanguage | desktop-app/src/main/kotlin/CodeData.kt:55-72 | A call whose declarations are all known completes the same way in any language and any variant, and adds no key. |
| Samples.ContainerHead | desktop-app/assets/kotlin-code-sample/ShapeContainer.kt:3 | `class Container {` declares `Container`, and neither Kotlin finder reports a parent. |
| Samples.ShapeField | desktop-app/assets/kotlin-code-sample/ShapeContainer.kt:4 | `var shape: Shape` followed by any text without `C` or `c` that does not start with `(`, as in `var shape: Shape? = null`, declares nothing, mentions `Shape` but not as a call, and does not mention `Container`. |
| Samples.ShapeFieldAddsShape | desktop-app/assets/kotlin-code-sample/ShapeContainer.kt:4 | That line adds exactly `Shape` to the current class in either key order of the two classes. |
| Samples.QuietLinesChangeNothing | android-app/app/src/main/java/com/ar/codenavigator/utils/CodeData.kt:120-135 | Lines inside a class that declare nothing and mention no known class leave the graph and the return flag unchanged. |
| Samples.NewClassReferring | android-app/app/src/main/java/com/ar/codenavigator/utils/CodeData.kt:92-139 | With `a` known, a new class `b` without a parent, then a line mentioning `a`, then lines mentioning nothing: `b` is added referring to exactly `a`, and the call returns true. |
| Samples.KotlinContainer | desktop-app/assets/kotlin-code-sample/ShapeContainer.kt:3-7 | Any text of the sample's shape, parsed as Kotlin with `Shape` known, creates `Container` with no parent and references exactly `{Shape}`. |
| Samples.KotlinContainerSample | desktop-app/assets/kotlin-code-sample/ShapeContainer.kt:3-7 | Lines 3-7 of the sample themselves give that result. |
| Report.TakeIndented | utils/src/main/kotlin/CodeData.kt:18-23 | Indented item lines are read back as exactly the items, up to the next heading. |
| Report.DecodeAllLines | utils/src/main/kotlin/CodeData.kt:13-29 | Reading back the lines of any list of blocks gives back exactly those blocks. |
| Report.BlockLines | utils/src/main/kotlin/CodeData.kt:16-25 | One class's text is its header, the parent heading and items, the reference heading and items, and an empty line, each ending in a newline. |
| Report.BlocksLines | utils/src/main/kotlin/CodeData.kt:15-26 | The report is the concatenation of the blocks of the classes in iteration order. |
| Report.ReportRoundTrip | utils/src/main/kotlin/CodeData.kt:13-29 | For a graph with newline-free names, reading the report back gives one entry per class, in the map's order, each with its parents and references in their sets' order. |
| Report.ReportDescribesGraph | android-app/app/src/main/java/com/ar/codenavigator/utils/CodeData.kt:20-47 | The report lists every class exactly once, and each block lists exactly that class's parents and references, each once. |
| Placement.Offset | android-app/app/src/main/java/com/ar/codenavigator/android_app/ARFragment.kt:286-296 | With `m = n / 4`, the offset for count `n` is at depth `m`, and its x (less `m`) and y come from the rotation table by `n % 4`: up, right, down, left. |
| Placement.SlotRoundTrip | android-app/app/src/main/java/com/ar/codenavigator/android_app/ARFragment.kt:284-296 | The placement count can be read back from the slot, and only slots are read back. |
| Placement.SlotsDistinct | android-app/app/src/main/java/com/ar/codenavigator/android_app/ARFragment.kt:286-296 | Different placement counts never give the same position. |
| Placement.FirstSlots | android-app/app/src/main/java/com/ar/codenavigator/android_app/ARFragment.kt:284-296 | The first six classes sit at the origin, up, right, down, left, and then one ring out at `(1, 1, 1)`. |
| Placement.NoSharedSlot | android-app/app/src/main/java/com/ar/codenavigator/android_app/ARFragment.kt:280-296 | In a valid scene no two classes share a position. |
| Placement.PlaceEffect | android-app/app/src/main/java/com/ar/codenavigator/android_app/ARFragment.kt:280-321 | A new class is placed at the slot of its placement count, the cursor moves on, the scene stays valid, and nothing else changes. |
| Placement.Attach | android-app/app/src/main/java/com/ar/codenavigator/android_app/ARFragment.kt:327-351 | The marker block adds no class node and leaves the placement history and the cursor alone. |
| Placement.AttachValid | android-app/app/src/main/java/com/ar/codenavigator/android_app/ARFragment.kt:327-351 | The marker block keeps the scene valid and removes nothing. |
| Placement.AttachEffect | android-app/app/src/main/java/com/ar/codenavigator/android_app/ARFragment.kt:327-351 | The marker is present afterwards. The connection is present exactly when it was before or the target has a node. At most one connection is added, exactly when it was missing and the target is placed. Other classes are unchanged. |
| Placement.AttachSettled | android-app/app/src/main/java/com/ar/codenavigator/android_app/ARFragment.kt:330-347 | When the marker exists and the connection exists or cannot be made, the block changes nothing. |
| Placement.VisitOf | android-app/app/src/main/java/com/ar/codenavigator/android_app/ARFragment.kt:327-356 | A parent or reference is taken exactly when the set is non-empty, and it is the set's first element. |
| Placement.RenderClassValid | android-app/app/src/main/java/com/ar/codenavigator/android_app/ARFragment.kt:279-325 | One iteration keeps the scene valid and places the class exactly when it had no node. |
| Placement.RenderClassMarks | android-app/app/src/main/java/com/ar/codenavigator/android_app/ARFragment.kt:327-377 | After one iteration the class has its markers, and the connection to every target already placed. Other classes are unchanged. |
| Placement.RenderClassLinks | android-app/app/src/main/java/com/ar/codenavigator/android_app/ARFragment.kt:345-377 | Every connection an iteration adds hangs under that iteration's class. |
| Placement.RenderClassSettled | android-app/app/src/main/java/com/ar/codenavigator/android_app/ARFragment.kt:330-377 | An iteration for a class already marked and connected changes nothing. |
| Placement.RenderVisits | android-app/app/src/main/java/com/ar/codenavigator/android_app/ARFragment.kt:278-379 | After the loop, exactly the classes already placed or visited have nodes. |
| Placement.RenderVisitsValid | android-app/app/src/main/java/com/ar/codenavigator/android_app/ARFragment.kt:278-379 | The loop keeps the scene valid and removes nothing. |
| Placement.RenderVisitsMarks | android-app/app/src/main/java/com/ar/codenavigator/android_app/ARFragment.kt:278-379 | After the loop every visited class is marked, and connected to every target placed before the call. |
| Placement.RenderVisitsSettled | android-app/app/src/main/java/com/ar/codenavigator/android_app/ARFragment.kt:278-379 | A loop over classes that are all settled changes nothing. |
| Placement.Render | android-app/app/src/main/java/com/ar/codenavigator/android_app/ARFragment.kt:264-380 | After a call, exactly the classes placed before or present in the graph have nodes. |
| Placement.RenderKeeps | android-app/app/src/main/java/com/ar/codenavigator/android_app/ARFragment.kt:264-380 | Nothing removed: a call keeps the scene valid and removes no slot, marker or connection. |
| Placement.RenderMarks | android-app/app/src/main/java/com/ar/codenavigator/android_app/ARFragment.kt:327-377 | After a call every class of the graph has its markers, and is connected to every target placed before the call. |
| Placement.SettledRenderFixed | android-app/app/src/main/java/com/ar/codenavigator/android_app/ARFragment.kt:264-380 | A call on a settled scene changes nothing. |
| Placement.RenderTwiceSettles | android-app/app/src/main/java/com/ar/codenavigator/android_app/ARFragment.kt:345-377 | Deferred connections are made by the next call: two calls on the same graph leave a settled scene. |
| Placement.ThirdRenderChangesNothing | android-app/app/src/main/java/com/ar/codenavigator/android_app/ARFragment.kt:264-380 | A third call on the same graph changes nothing. |
| Placement.NoConnectionToUnplaced | android-app/app/src/main/java/com/ar/codenavigator/android_app/ARFragment.kt:345-351 | After a call, no connection points at a class that was neither placed before nor present in the graph. |
| Placement.RenderedSlotsDistinct | android-app/app/src/main/java/com/ar/codenavigator/android_app/ARFragment.kt:284-296 | After a call, any two classes of the graph sit at different positions. |
| Placement.RenderIsLoop | android-app/app/src/main/java/com/ar/codenavigator/android_app/ARFragment.kt:278 | A call is the loop over the classes in the map's order. |
| Placement.DeferredFirstRender | android-app/app/src/main/java/com/ar/codenavigator/android_app/ARFragment.kt:327-351 | With only the child known, the child gets the `parent-Parent` marker and no connection. |
| Placement.DeferredSecondRender | android-app/app/src/main/java/com/ar/codenavigator/android_app/ARFragment.kt:345-351 | Once the parent has been read, the next call places it. The scene is one of two, by the map's order: parent placed but unconnected, or placed and connected. |
| Placement.SecondRenderByOrder | android-app/app/src/main/java/com/ar/codenavigator/android_app/ARFragment.kt:278-351 | Both scenes of that second call occur: a map that visits `Child` first leaves the parent unconnected, and one that visits `Parent` first connects at once. |
| Placement.SecondRenderChildFirst | android-app/app/src/main/java/com/ar/codenavigator/android_app/ARFragment.kt:278-351 | Visiting `Child` first, its pass finds no node for `Parent` and defers. `Parent`'s pass then places it, so the child stays unconnected. |
| Placement.SecondRenderParentFirst | android-app/app/src/main/java/com/ar/codenavigator/android_app/ARFragment.kt:278-351 | Visiting `Parent` first places it, and `Child`'s pass then finds it and connects. For these two names the JVM's 16-bucket `HashMap` lists `Parent` first. |
| Placement.DeferredThirdRender | android-app/app/src/main/java/com/ar/codenavigator/android_app/ARFragment.kt:345-351 | The call after that connects in every order. |
| Placement.DeferredConnection | android-app/app/src/main/java/com/ar/codenavigator/android_app/ARFragment.kt:345-351 | The connection is deferred until the target has a slot. It is then made exactly once, and later calls change nothing. |

## Left out

- OCR and image processing (`OcrData.kt`, `Main.kt`, `CodeTextFragment`) are foreign calls and file I/O.
- Camera image conversion in `ARFragment` depends on Android buffers and RenderScript.
- Geometry and animation are left out: `createNodeConnection`'s cylinder, rotations, `distanceBetweenVecs` and the rotation animators use floating point and Sceneform. Positions are integers in units of `_shapePadding` (x, y) and 0.01 (z), which is exact for the table since every coordinate is a whole multiple of one of those.
- Connection nodes are made immediately. In the source they are named inside an asynchronous `thenAccept`, so a second call before the callback runs could create a duplicate.
- The class label node (also created asynchronously) and the animator lists are not modelled. They carry no name a later call looks up.
- The tracking-state early return and anchor creation of `renderCodeModels` are AR session plumbing.
- Concurrency (`GlobalScope.async` parsing, UI-thread rendering) is modelled as a sequence of parse and render calls.
- UI code, `CodeListFragment`, permissions, and the span colours and bold styling of `formattedText` are left out. The report is modelled as its plain text.
- `logClassHiararchy` in all copies only prints.
- Text.AsciiLower: keeps the length and maps each character on its own, whereas Kotlin's `lowercase()` can lengthen a string (U+0130 becomes `i` and U+0307). No such character lower-cases to the letters or `+` alone, so comparing the result with `cpp`, `c++`, `java` or `kotlin` (`Text.LowerSpells`) comes out as in the source.
- `ClassNode.classData`, the snapshot a class node keeps, is not modelled because `renderCodeModels` never reads it back.
- The order of a `HashSet` is taken as a function of its contents alone (`Orders.SetOrder`). This assumes that two sets with equal contents iterate alike. On the JVM the order can also depend on capacity history, which the model does not represent.
- Character classes are those of the JVM's regex engine: `\w` is ASCII `[a-zA-Z0-9_]` and `\s` is ASCII whitespace (`Text.IsWordChar`, `Text.IsSpace`). Android's ICU-based `java.util.regex` may give `\w` and `\s` their Unicode meaning (`é` a word character, U+00A0 a space), so on non-ASCII text the Android copy can match where the model does not.
- A `char` here is a code point, whereas Kotlin indexes strings by UTF-16 unit. On text with characters outside the Basic Multilingual Plane, the indices and lengths in a `StringIndexOutOfBounds` differ from the JVM's.
- Samples.KotlinContainer: the head, field and body lines are generalised to any continuation of the same shape. `Samples.KotlinContainerSample` instantiates it with the sample's own lines 3-7.
- Three behaviours of the code that a reader may not expect, which the model follows:
  - A parent finder that finds no terminator throws (`StringIndexOutOfBounds`). It does not report "no parent".
  - The graph keeps the class inserted before the throw.
  - The first class sits at the origin and class `k` at offset `k - 1`, so the fifth class is placed at ring 0 (left), not at the start of ring 1 (`Placement.FirstSlots`).
