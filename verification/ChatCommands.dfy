// The chat line as the server reads it (src/server/client_handler.cpp:214-304) and as
// the client writes it (src/client/client.cpp:196-216).

module ChatCommands {
  import opened ByteStrings
  import opened Messages

  const MAX_MSG_LEN := 4096

  datatype Complaint = JoinUsage | PmUsage | UnknownCommand | TooLong

  datatype Command =
    | Quit
    | Nothing
    | JoinRoom(room: Bytes)
    | LeaveRoom
    | Private(to: Bytes, text: Bytes)
    | Refused(why: Complaint)   // answered with an ERR frame
    | Say(text: Bytes)

  // istringstream: skip white space, take a word.

  function SkipSpace(s: Bytes): Bytes {
    if s != [] && IsSpace(s[0]) then SkipSpace(s[1..]) else s
  }

  function WordLength(s: Bytes): (n: nat)
    ensures n <= |s|
  {
    if s == [] || IsSpace(s[0]) then 0 else 1 + WordLength(s[1..])
  }

  datatype Extracted = Extracted(word: Bytes, rest: Bytes)

  function ExtractWord(s: Bytes): Extracted {
    var t := SkipSpace(s);
    var n := WordLength(t);
    Extracted(t[..n], t[n..])
  }

  /** std::getline on what is left of the text. */
  function RestOfLine(s: Bytes): Bytes {
    s[..Find(s, '\n')]
  }

  function PrivateCommand(args: Bytes): Command {
    var target := ExtractWord(args);
    var line := RestOfLine(target.rest);
    var text := if line != [] && line[0] == ' ' then line[1..] else line;
    if target.word == [] || text == [] then Refused(PmUsage) else Private(target.word, text)
  }

  function SlashCommand(text: Bytes): Command {
    var cmd := ExtractWord(text);
    if cmd.word == "/join" then
      var room := ExtractWord(cmd.rest).word;
      if room == [] then Refused(JoinUsage) else JoinRoom(room)
    else if cmd.word == "/leave" then LeaveRoom
    else if cmd.word == "/pm" then PrivateCommand(cmd.rest)
    else Refused(UnknownCommand)
  }

  function TextCommand(text: Bytes): Command {
    if text == [] then Nothing
    else if text[0] == '/' then SlashCommand(text)
    else if |text| > MAX_MSG_LEN then Refused(TooLong)
    else Say(text)
  }

  predicate IsQuit(word: Bytes) {
    word == "exit" || word == "quit"
  }

  /** What one received line asks for. */
  function LineCommand(line: Bytes): Command {
    var m := ParsedFrame(line);
    if m.kind == "EXIT" || IsQuit(m.payload) || IsQuit(line) then Quit
    else TextCommand(if m.kind == "MSG" then m.payload else line)
  }

  // Reading back what the client writes.

  /** A MSG frame carries its text up to the line ends at its end. */
  lemma ParsedMsg(text: Bytes)
    ensures ParsedFrame(Body(Msg(text))) == Message("MSG", StripLineEnds(text))
  {
    if text == [] {
      StripAfterPrefix("MSG", []);
    } else {
      StripAfterPrefix("MSG" + ":", text);
      SplitMsg(StripLineEnds(text));
    }
  }

  lemma SplitMsg(text: Bytes)
    ensures SplitAtColon("MSG" + ":" + text) == Message("MSG", text)
  {
    FindInConcat("MSG", ':', text);
    assert ("MSG" + ":" + text)[..3] == "MSG" && ("MSG" + ":" + text)[4..] == text;
  }

  /** The text of a MSG frame as a command. */
  function MsgCommand(text: Bytes): Command {
    if IsQuit(text) then Quit else TextCommand(text)
  }

  /** A typed line is understood as the command in its text, less its line ends. */
  lemma SaidText(line: Bytes)
    ensures var text := StripLineEnds(line);
            LineCommand(Body(Msg(line))) == MsgCommand(text)
  {
    ParsedMsg(line);
  }

  predicate IsWord(s: Bytes) {
    s != [] && forall i :: 0 <= i < |s| ==> !IsSpace(s[i])
  }

  lemma {:induction false} WordLengthOf(word: Bytes, rest: Bytes)
    requires forall i :: 0 <= i < |word| ==> !IsSpace(word[i])
    requires rest == [] || IsSpace(rest[0])
    ensures WordLength(word + rest) == |word|
  {
    if word == [] {
      assert word + rest == rest;
    } else {
      assert (word + rest)[1..] == word[1..] + rest;
      WordLengthOf(word[1..], rest);
    }
  }

  predicate IsBlank(s: Bytes) {
    forall i :: 0 <= i < |s| ==> IsSpace(s[i])
  }

  /** All the white space before a word is skipped, and the rest of the text is left. */
  lemma {:induction false} ExtractAfterBlanks(blanks: Bytes, word: Bytes, rest: Bytes)
    requires IsBlank(blanks) && IsWord(word) && (rest == [] || IsSpace(rest[0]))
    ensures ExtractWord(blanks + word + rest) == Extracted(word, rest)
  {
    if blanks == [] {
      assert blanks + word + rest == word + rest;
      WordLengthOf(word, rest);
    } else {
      assert blanks + word + rest == [blanks[0]] + (blanks[1..] + word + rest);
      ExtractAfterBlanks(blanks[1..], word, rest);
    }
  }

  lemma {:induction false} ExtractNothing(blanks: Bytes)
    requires IsBlank(blanks)
    ensures ExtractWord(blanks) == Extracted([], [])
  {
    if blanks != [] {
      ExtractNothing(blanks[1..]);
    }
  }

  lemma ExtractFirstWord(word: Bytes, rest: Bytes)
    requires IsWord(word)
    requires rest == [] || IsSpace(rest[0])
    ensures ExtractWord(word + rest) == Extracted(word, rest)
    ensures ExtractWord(" " + word + rest) == Extracted(word, rest)
  {
    assert [] + word + rest == word + rest;
    ExtractAfterBlanks([], word, rest);
    ExtractAfterBlanks(" ", word, rest);
  }

  lemma {:induction false} WordHasNoSpace(s: Bytes)
    ensures forall i :: 0 <= i < WordLength(s) ==> !IsSpace(s[i])
  {
    if s != [] && !IsSpace(s[0]) {
      WordHasNoSpace(s[1..]);
    }
  }

  lemma ExtractedWord(s: Bytes)
    ensures ExtractWord(s).word == [] || IsWord(ExtractWord(s).word)
  {
    WordHasNoSpace(SkipSpace(s));
  }

  function PmLine(user: Bytes, text: Bytes): Bytes {
    "/pm" + (" " + user + (" " + text))
  }

  function JoinLine(room: Bytes): Bytes {
    "/join" + (" " + room)
  }

  lemma SlashPm(args: Bytes)
    requires args != [] && IsSpace(args[0])
    ensures TextCommand("/pm" + args) == PrivateCommand(args)
  {
    ExtractFirstWord("/pm", args);
  }

  lemma SlashJoin(args: Bytes)
    requires args != [] && IsSpace(args[0])
    ensures TextCommand("/join" + args) ==
            var room := ExtractWord(args).word; if room == [] then Refused(JoinUsage) else JoinRoom(room)
  {
    ExtractFirstWord("/join", args);
  }

  lemma PrivateShape(args: Bytes)
    requires PrivateCommand(args).Private?
    ensures IsWord(PrivateCommand(args).to) && PrivateCommand(args).text != [] && '\n' !in PrivateCommand(args).text
  {
    ExtractedWord(args);
  }

  /** "/pm user text" reads back as (user, text), leading blanks of the text included. */
  lemma PmReadsBack(user: Bytes, text: Bytes)
    ensures TextCommand(PmLine(user, text)) == Private(user, text) <==> IsWord(user) && text != [] && '\n' !in text
  {
    var args := " " + user + (" " + text);
    SlashPm(args);
    if IsWord(user) && text != [] && '\n' !in text {
      PmArguments(" ", user, text);
    } else if PrivateCommand(args).Private? {
      PrivateShape(args);
    }
  }

  lemma JoinReadsBack(room: Bytes)
    ensures TextCommand(JoinLine(room)) == JoinRoom(room) <==> IsWord(room)
  {
    SlashJoin(" " + room);
    ExtractedWord(" " + room);
    if IsWord(room) {
      assert " " + room == " " + room + [];
      ExtractFirstWord(room, []);
    }
  }

  predicate EndsWord(rest: Bytes) {
    rest == [] || IsSpace(rest[0])
  }

  lemma {:induction false} WordGoesOn(word: Bytes, rest: Bytes)
    requires (forall i :: 0 <= i < |word| ==> !IsSpace(word[i])) && rest != [] && !IsSpace(rest[0])
    ensures WordLength(word + rest) > |word|
  {
    if word == [] {
      assert word + rest == rest;
    } else {
      assert (word + rest)[1..] == word[1..] + rest;
      WordGoesOn(word[1..], rest);
    }
  }

  /** "/leave" leaves, whatever follows after white space. */
  lemma LeaveReadsBack(args: Bytes)
    ensures TextCommand("/leave" + args) == LeaveRoom <==> EndsWord(args)
  {
    if EndsWord(args) {
      ExtractFirstWord("/leave", args);
    } else {
      WordGoesOn("/leave", args);
    }
  }

  /** No other word after the slash is a command. */
  lemma OtherWordsAreUnknown(word: Bytes, args: Bytes)
    requires IsWord(word) && word[0] == '/' && EndsWord(args)
    ensures TextCommand(word + args) == Refused(UnknownCommand) <==>
            word != "/join" && word != "/leave" && word != "/pm"
  {
    ExtractFirstWord(word, args);
  }

  /** The first word after "/join" is the room; what follows is ignored. */
  lemma JoinTakesOneWord(blanks: Bytes, room: Bytes, rest: Bytes)
    requires IsBlank(blanks) && blanks != [] && (room == [] || IsWord(room)) && EndsWord(rest)
    ensures TextCommand("/join" + (blanks + room + rest)) == JoinRoom(room) <==> room != []
    ensures TextCommand("/join" + blanks) == Refused(JoinUsage) && TextCommand("/join") == Refused(JoinUsage)
  {
    SlashJoin(blanks);
    ExtractNothing(blanks);
    BareJoin();
    SlashJoin(blanks + room + rest);
    if room != [] {
      ExtractAfterBlanks(blanks, room, rest);
    }
  }

  lemma BareJoin()
    ensures TextCommand("/join") == Refused(JoinUsage) && TextCommand("/pm") == Refused(PmUsage)
  {
    ExtractFirstWord("/join", []);
    ExtractFirstWord("/pm", []);
    assert "/join" + [] == "/join" && "/pm" + [] == "/pm";
  }

  /** "/pm" needs an addressee and a text; one blank before the text is not part of it. */
  lemma PmNeedsText(blanks: Bytes, user: Bytes, text: Bytes)
    requires IsBlank(blanks) && blanks != [] && IsWord(user) && '\n' !in text
    ensures TextCommand("/pm" + (blanks + user + (" " + text))) ==
            if text == [] then Refused(PmUsage) else Private(user, text)
    ensures TextCommand("/pm" + (blanks + user)) == Refused(PmUsage)
    ensures TextCommand("/pm" + blanks) == Refused(PmUsage) && TextCommand("/pm") == Refused(PmUsage)
  {
    BareJoin();
    PmWithoutText(blanks, user);
    SlashPm(blanks + user + (" " + text));
    PmArguments(blanks, user, text);
  }

  lemma PmArguments(blanks: Bytes, user: Bytes, text: Bytes)
    requires IsBlank(blanks) && IsWord(user) && '\n' !in text
    ensures PrivateCommand(blanks + user + (" " + text)) ==
            if text == [] then Refused(PmUsage) else Private(user, text)
  {
    var line := " " + text;
    ExtractAfterBlanks(blanks, user, line);
    assert line[1..] == text && RestOfLine(line) == line;
  }

  lemma PmWithoutText(blanks: Bytes, user: Bytes)
    requires IsBlank(blanks) && blanks != [] && IsWord(user)
    ensures TextCommand("/pm" + (blanks + user)) == Refused(PmUsage)
    ensures TextCommand("/pm" + blanks) == Refused(PmUsage)
  {
    SlashPm(blanks);
    ExtractNothing(blanks);
    SlashPm(blanks + user);
    assert blanks + user + [] == blanks + user;
    ExtractAfterBlanks(blanks, user, []);
  }

  /** What is no slash command: nothing at all, a goodbye, too much, or something to say. */
  lemma PlainTexts(text: Bytes)
    requires text == [] || text[0] != '/'
    ensures MsgCommand(text) ==
            if text == "exit" || text == "quit" then Quit
            else if text == [] then Nothing
            else if |text| > 4096 then Refused(TooLong)
            else Say(text)
  {
  }

  /** A line ends the chat in exactly these cases. */
  lemma QuitIff(line: Bytes)
    ensures LineCommand(line) == Quit <==>
            || line == "exit" || line == "quit" || ParsedFrame(line).kind == "EXIT"
            || ParsedFrame(line).payload == "exit" || ParsedFrame(line).payload == "quit"
  {
  }

  // The same commands inside a MSG frame.

  lemma LeaveInFrameReadsBack(args: Bytes)
    ensures LineCommand(Body(Msg("/leave" + args))) == LeaveRoom <==> EndsWord(args)
  {
    SaidText("/leave" + args);
    StartsWithSlash("/leave" + args);
    SlashIsNoQuit(StripLineEnds("/leave" + args));
    LeaveTextCommand(args);
  }

  lemma LeaveTextCommand(args: Bytes)
    ensures TextCommand(StripLineEnds("/leave" + args)) == LeaveRoom <==> EndsWord(args)
  {
    StripAfterPrefix("/leave", args);
    StrippedHead(args);
    LeaveReadsBack(StripLineEnds(args));
  }

  lemma {:induction false} StrippedHead(s: Bytes)
    ensures StripLineEnds(s) == [] ==> forall i :: 0 <= i < |s| ==> IsLineEnd(s[i])
    ensures EndsWord(StripLineEnds(s)) <==> EndsWord(s)
  {
    if s != [] && IsLineEnd(s[|s| - 1]) {
      StrippedHead(s[..|s| - 1]);
    }
  }

  lemma {:induction false} ExtractIsSuffix(s: Bytes)
    ensures |SkipSpace(s)| <= |s| && SkipSpace(s) == s[|s| - |SkipSpace(s)|..]
  {
    if s != [] && IsSpace(s[0]) {
      ExtractIsSuffix(s[1..]);
    }
  }

  ghost predicate EndsLike(t: Bytes, s: Bytes) {
    t != [] ==> |t| <= |s| && t == s[|s| - |t|..]
  }

  /** The text of a private message is the end of the command that carries it. */
  lemma PrivateTextIsSuffix(args: Bytes)
    requires '\n' !in args && PrivateCommand(args).Private?
    ensures EndsLike(PrivateCommand(args).text, args)
  {
    ExtractIsSuffix(args);
    assert RestOfLine(ExtractWord(args).rest) == ExtractWord(args).rest;
  }

  lemma SlashSuffix(text: Bytes)
    requires TextCommand(text).Private?
    ensures exists args :: EndsLike(args, text) && TextCommand(text) == PrivateCommand(args)
  {
    ExtractIsSuffix(text);
    assert EndsLike(ExtractWord(text).rest, text);
  }

  lemma SlashIsNoQuit(text: Bytes)
    requires text != [] && text[0] == '/'
    ensures MsgCommand(text) == TextCommand(text)
  {
  }

  lemma KeptWhole(line: Bytes)
    requires line != [] && !IsLineEnd(line[|line| - 1])
    ensures StripLineEnds(line) == line
  {
  }

  lemma PmKept(user: Bytes, text: Bytes)
    requires text != [] && !IsLineEnd(text[|text| - 1])
    ensures StripLineEnds(PmLine(user, text)) == PmLine(user, text)
  {
    var line := PmLine(user, text);
    assert line[|line| - 1] == text[|text| - 1];
    KeptWhole(line);
  }

  /** A text that ends in a line end never comes through. */
  lemma PmCut(user: Bytes, text: Bytes, kept: Bytes)
    requires '\n' !in kept && (kept == [] || !IsLineEnd(kept[|kept| - 1]))
    requires text == [] || IsLineEnd(text[|text| - 1])
    ensures TextCommand(kept) != Private(user, text)
  {
    if TextCommand(kept) == Private(user, text) {
      SlashSuffix(kept);
      var args :| EndsLike(args, kept) && TextCommand(kept) == PrivateCommand(args);
      PrivateShape(args);
      PrivateTextIsSuffix(args);
      LastByte(text, args);
      LastByte(args, kept);
    }
  }

  lemma LastByte(t: Bytes, s: Bytes)
    requires EndsLike(t, s) && t != []
    ensures s != [] && s[|s| - 1] == t[|t| - 1]
  {
  }

  lemma PmTextCommand(user: Bytes, text: Bytes)
    ensures TextCommand(StripLineEnds(PmLine(user, text))) == Private(user, text) <==>
            IsWord(user) && text != [] && '\n' !in text && text[|text| - 1] != '\r'
  {
    if text != [] && !IsLineEnd(text[|text| - 1]) {
      PmKept(user, text);
      PmReadsBack(user, text);
    } else if TextCommand(StripLineEnds(PmLine(user, text))) == Private(user, text) {
      PmLosesLineEnds(user, text);
    }
  }

  /** A text that ends in a line end is not read back. */
  lemma PmLosesLineEnds(user: Bytes, text: Bytes)
    requires text == [] || IsLineEnd(text[|text| - 1])
    ensures TextCommand(StripLineEnds(PmLine(user, text))) != Private(user, text)
  {
    var kept := StripLineEnds(PmLine(user, text));
    if TextCommand(kept) == Private(user, text) {
      SlashShape(kept);
      PmStripped(user, text);
      PmCut(user, text, kept);
    }
  }

  lemma PmStripped(user: Bytes, text: Bytes)
    requires IsWord(user) && '\n' !in text
    ensures var kept := StripLineEnds(PmLine(user, text));
            '\n' !in kept && (kept == [] || !IsLineEnd(kept[|kept| - 1]))
  {
    assert '\n' !in PmLine(user, text);
  }

  lemma SlashShape(text: Bytes)
    requires TextCommand(text).Private?
    ensures IsWord(TextCommand(text).to) && TextCommand(text).text != [] && '\n' !in TextCommand(text).text
  {
    PrivateShape(ExtractWord(text).rest);
  }

  lemma StartsWithSlash(line: Bytes)
    requires line != [] && line[0] == '/'
    ensures StripLineEnds(line) != [] && StripLineEnds(line)[0] == '/'
  {
    StripAfterPrefix("/", line[1..]);
    assert line == "/" + line[1..];
  }

  /** In a MSG frame the text must not end in CR either. */
  lemma PmInFrameReadsBack(user: Bytes, text: Bytes)
    ensures LineCommand(Body(Msg(PmLine(user, text)))) == Private(user, text) <==>
            IsWord(user) && text != [] && '\n' !in text && text[|text| - 1] != '\r'
  {
    SaidText(PmLine(user, text));
    StartsWithSlash(PmLine(user, text));
    SlashIsNoQuit(StripLineEnds(PmLine(user, text)));
    PmTextCommand(user, text);
  }

  lemma JoinedRoomIsWord(text: Bytes)
    requires TextCommand(text).JoinRoom?
    ensures IsWord(TextCommand(text).room)
  {
    ExtractedWord(ExtractWord(text).rest);
  }

  /** Rooms joined are single words. */
  lemma JoinedRoomOfLine(line: Bytes)
    requires LineCommand(line).JoinRoom?
    ensures IsWord(LineCommand(line).room)
  {
    var m := ParsedFrame(line);
    JoinedRoomIsWord(if m.kind == "MSG" then m.payload else line);
  }

  lemma JoinTextCommand(room: Bytes)
    ensures TextCommand(StripLineEnds(JoinLine(room))) == JoinRoom(room) <==> IsWord(room)
  {
    if IsWord(room) {
      var line := JoinLine(room);
      assert line[|line| - 1] == room[|room| - 1];
      KeptWhole(line);
      JoinReadsBack(room);
    } else if TextCommand(StripLineEnds(JoinLine(room))) == JoinRoom(room) {
      JoinedRoomIsWord(StripLineEnds(JoinLine(room)));
    }
  }

  lemma JoinInFrameReadsBack(room: Bytes)
    ensures LineCommand(Body(Msg(JoinLine(room)))) == JoinRoom(room) <==> IsWord(room)
  {
    SaidText(JoinLine(room));
    StartsWithSlash(JoinLine(room));
    SlashIsNoQuit(StripLineEnds(JoinLine(room)));
    JoinTextCommand(room);
  }
}
