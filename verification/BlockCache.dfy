/** Block-wise extraction behind a content-hash gate: only block texts without a remembered answer are
    sent to the model (internal/scraper/llmgeneric.go, the persistent cache in
    internal/store/sqlite.go).  A block's hash is identified with its text. */
module BlockCache {
  import opened Wrappers
  import opened Text
  import opened Listings

  /** One opening the model claims to have found in a block. */
  datatype Extracted = Extracted(sourceBlock: int, title: string, url: string, summary: string)

  /** How a claimed opening is validated: the character tables and URL resolution against the page. */
  datatype Rules = Rules(t: Chars, resolve: string -> Option<string>)

  type Cache = map<string, seq<Listing>>

  /** The in-process cache and, when the source has one, the persistent cache. */
  datatype State = State(memory: Cache, stored: Option<Cache>)

  function Normalized(rules: Rules, e: Extracted): Option<Listing>
  {
    var title := Trim(e.title, rules.t.space);
    var summary := Trim(e.summary, rules.t.space);
    if title == "" then None
    else
      match rules.resolve(Trim(e.url, rules.t.space))
      case Some(url) => Some(Listing(title, url, if summary == "" then title else summary))
      case None => None
  }

  /** The valid listings an answer attributes to one block, in answer order. */
  function FreshFor(rules: Rules, answer: seq<Extracted>, block: int): seq<Listing>
  {
    if answer == [] then []
    else
      var last := answer[|answer| - 1];
      FreshFor(rules, answer[..|answer| - 1], block) +
      if last.sourceBlock == block && Normalized(rules, last).Some? then [Normalized(rules, last).value] else []
  }

  /** The cached answers a scan of these blocks starts from. */
  function Loaded(s: State, blocks: seq<string>): Cache
  {
    if s.stored.None? then s.memory
    else s.memory + map text | text in blocks && text in s.stored.value :: s.stored.value[text]
  }

  /** The positions of the blocks that have no cached answer. */
  function Changed(cache: Cache, blocks: seq<string>): (r: seq<nat>)
    ensures Positions(r, blocks)
    ensures forall i :: i in r <==> 0 <= i < |blocks| && blocks[i] !in cache
  {
    if blocks == [] then []
    else
      var last := |blocks| - 1;
      Changed(cache, blocks[..last]) + if blocks[last] in cache then [] else [last]
  }

  predicate Positions(sent: seq<nat>, blocks: seq<string>)
  {
    forall k :: 0 <= k < |sent| ==> sent[k] < |blocks|
  }

  /** Remembers the answer for every sent block, including the blocks it found nothing in. */
  function Remembered(rules: Rules, cache: Cache, blocks: seq<string>, sent: seq<nat>, answer: seq<Extracted>): Cache
    requires Positions(sent, blocks)
  {
    if sent == [] then cache
    else
      var last := sent[|sent| - 1];
      Remembered(rules, cache, blocks, sent[..|sent| - 1], answer)[blocks[last] := FreshFor(rules, answer, last)]
  }

  function Concatenated(cache: Cache, blocks: seq<string>): seq<Listing>
  {
    if blocks == [] then []
    else
      var last := blocks[|blocks| - 1];
      Concatenated(cache, blocks[..|blocks| - 1]) + if last in cache then cache[last] else []
  }

  datatype Failure = LoadFailed | ExtractorFailed | SaveFailed

  /** One extraction; answer is None when the model call fails. */
  datatype Scan = Scan(blocks: seq<string>, answer: Option<seq<Extracted>>, loads: bool, saves: bool)

  function Sent(s: State, scan: Scan): seq<nat>
  {
    if s.stored.Some? && !scan.loads then [] else Changed(Loaded(s, scan.blocks), scan.blocks)
  }

  function Extracting(rules: Rules, s: State, scan: Scan): (State, Result<seq<Listing>, Failure>)
  {
    if s.stored.Some? && !scan.loads then (s, Err(LoadFailed))
    else
      var cache := Loaded(s, scan.blocks);
      var sent := Changed(cache, scan.blocks);
      if sent == [] then (s.(memory := cache), Ok(FirstByUrl(Concatenated(cache, scan.blocks))))
      else if scan.answer.None? then (s.(memory := cache), Err(ExtractorFailed))
      else
        var cache' := Remembered(rules, cache, scan.blocks, sent, scan.answer.value);
        if s.stored.None? then (State(cache', None), Ok(FirstByUrl(Concatenated(cache', scan.blocks))))
        else if !scan.saves then (s.(memory := cache'), Err(SaveFailed))
        else (State(cache', Some(Remembered(rules, s.stored.value, scan.blocks, sent, scan.answer.value))),
              Ok(FirstByUrl(Concatenated(cache', scan.blocks))))
  }

  function Restarted(s: State): State { s.(memory := map[]) }

  // ----- The answers known so far -----

  function Known(s: State): Cache
  {
    if s.stored.None? then s.memory else s.memory + s.stored.value
  }

  /** The two caches agree wherever both have an answer. */
  ghost predicate Consistent(s: State)
  {
    s.stored.Some? ==> forall text <- s.memory :: text in s.stored.value ==> s.stored.value[text] == s.memory[text]
  }

  ghost predicate Extends(a: Cache, b: Cache)
  {
    forall text <- a :: text in b && b[text] == a[text]
  }

  lemma {:induction false} LoadedIsKnown(s: State, blocks: seq<string>)
    requires Consistent(s)
    ensures Extends(s.memory, Loaded(s, blocks)) && Extends(Loaded(s, blocks), Known(s))
    ensures forall text <- blocks :: text in Loaded(s, blocks) <==> text in Known(s)
  {
  }

  lemma {:induction false} RememberedAt(rules: Rules, cache: Cache, blocks: seq<string>, sent: seq<nat>, answer: seq<Extracted>, text: string)
    requires Positions(sent, blocks)
    ensures var cache' := Remembered(rules, cache, blocks, sent, answer);
      && (text in cache' <==> text in cache || exists k :: 0 <= k < |sent| && blocks[sent[k]] == text)
      && ((forall k :: 0 <= k < |sent| ==> blocks[sent[k]] != text) && text in cache ==> cache'[text] == cache[text])
  {
    if sent != [] {
      var n := |sent| - 1;
      RememberedAt(rules, cache, blocks, sent[..n], answer, text);
    }
  }

  /** A text answered in a scan gets the listings attributed to its (last) position. */
  lemma {:induction false} RememberedFresh(
      rules: Rules, cache: Cache, blocks: seq<string>, sent: seq<nat>, answer: seq<Extracted>, k: nat)
    requires Positions(sent, blocks)
    requires k < |sent| && forall j :: k < j < |sent| ==> blocks[sent[j]] != blocks[sent[k]]
    ensures var cache' := Remembered(rules, cache, blocks, sent, answer);
      blocks[sent[k]] in cache' && cache'[blocks[sent[k]]] == FreshFor(rules, answer, sent[k])
  {
    var n := |sent| - 1;
    if k < n { RememberedFresh(rules, cache, blocks, sent[..n], answer, k); }
  }

  /** The same blocks remembered in two caches that agree stay in agreement. */
  lemma {:induction false} RememberedTogether(
      rules: Rules, a: Cache, b: Cache, blocks: seq<string>, sent: seq<nat>, answer: seq<Extracted>, text: string)
    requires Positions(sent, blocks)
    requires text in a && text in b ==> a[text] == b[text]
    ensures var (a', b') := (Remembered(rules, a, blocks, sent, answer), Remembered(rules, b, blocks, sent, answer));
      text in a' && text in b' && (text in a || text in b ==> text in a && text in b) ==> a'[text] == b'[text]
  {
    if sent != [] {
      RememberedTogether(rules, a, b, blocks, sent[..|sent| - 1], answer, text);
    }
  }

  /** Only listings the answer attributes to a block are taken for it, and all valid ones are. */
  lemma {:induction false} FreshIsAttributed(rules: Rules, answer: seq<Extracted>, block: int, l: Listing)
    ensures l in FreshFor(rules, answer, block) <==>
      exists e <- answer :: e.sourceBlock == block && Normalized(rules, e) == Some(l)
  {
    if answer != [] {
      var n := |answer| - 1;
      assert answer == answer[..n] + [answer[n]];
      FreshIsAttributed(rules, answer[..n], block, l);
    }
  }

  /** In answer order: the listings of an answer in two halves are those of the first and then those
      of the second. */
  lemma {:induction false} FreshInOrder(rules: Rules, first: seq<Extracted>, second: seq<Extracted>, block: int)
    ensures FreshFor(rules, first + second, block) == FreshFor(rules, first, block) + FreshFor(rules, second, block)
    decreases |second|
  {
    hide Normalized;
    if second == [] {
      assert first + second == first;
    } else {
      var n := |second| - 1;
      assert (first + second)[..|first| + n] == first + second[..n];
      FreshInOrder(rules, first, second[..n], block);
    }
  }

  predicate Blank(rules: Rules, s: string) { AllChars(s, rules.t.space) }

  /** A text that neither begins nor ends with white space. */
  predicate Tight(rules: Rules, s: string)
  {
    s == "" || (!rules.t.space(s[0]) && !rules.t.space(s[|s| - 1]))
  }

  /** A claimed opening is valid exactly when its title is not blank and its link resolves.  White
      space around the three texts does not count, and a missing summary is the title. */
  lemma {:induction false} NormalizedReads(
      rules: Rules, block: int, title: string, url: string, summary: string, left: string, right: string)
    requires Tight(rules, title) && Tight(rules, url) && Tight(rules, summary) && Blank(rules, left) && Blank(rules, right)
    ensures var n := Normalized(rules, Extracted(block, left + title + right, left + url + right, left + summary + right));
      && (n.Some? <==> title != "" && rules.resolve(url).Some?)
      && (n.Some? ==> n.value == Listing(title, rules.resolve(url).value, if summary == "" then title else summary))
  {
    hide Trim;
    TrimStrips(left, title, right, rules.t.space);
    TrimStrips(left, url, right, rules.t.space);
    TrimStrips(left, summary, right, rules.t.space);
  }

  lemma {:induction false} SameConcatenation(a: Cache, b: Cache, blocks: seq<string>)
    requires forall text <- blocks :: (text in a <==> text in b) && (text in a ==> a[text] == b[text])
    ensures Concatenated(a, blocks) == Concatenated(b, blocks)
  {
    if blocks != [] {
      assert blocks[|blocks| - 1] in blocks;
      assert forall text <- blocks[..|blocks| - 1] :: text in blocks;
      SameConcatenation(a, b, blocks[..|blocks| - 1]);
    }
  }

  lemma {:induction false} NewTexts(rules: Rules, s: State, scan: Scan, text: string)
    requires Consistent(s) && (s.stored.Some? ==> scan.loads)
    ensures var sent := Sent(s, scan);
      (exists k :: 0 <= k < |sent| && scan.blocks[sent[k]] == text) <==> text in scan.blocks && text !in Known(s)
  {
    LoadedIsKnown(s, scan.blocks);
    if text in scan.blocks && text !in Known(s) {
      var i :| 0 <= i < |scan.blocks| && scan.blocks[i] == text;
      assert i in Sent(s, scan);
      var k :| 0 <= k < |Sent(s, scan)| && Sent(s, scan)[k] == i;
    }
  }

  /** A scan never forgets or changes an answer, whatever fails.  It sends exactly the blocks whose
      text has no answer yet; when it succeeds it returns the known answers of its blocks, joined in
      block order without repeating a URL. */
  lemma {:induction false} ScanKeepsAnswers(rules: Rules, s: State, scan: Scan)
    requires Consistent(s)
    ensures var (s', r) := Extracting(rules, s, scan);
      && Consistent(s') && (s'.stored.Some? <==> s.stored.Some?)
      && Extends(Known(s), Known(s'))
      && (r.Ok? ==> (forall text <- scan.blocks :: text in Known(s'))
                    && r.value == FirstByUrl(Concatenated(Known(s'), scan.blocks)))
    ensures (s.stored.Some? ==> scan.loads) ==>
      forall i :: i in Sent(s, scan) <==> 0 <= i < |scan.blocks| && scan.blocks[i] !in Known(s)
  {
    LoadedIsKnown(s, scan.blocks);
    var (s', r) := Extracting(rules, s, scan);
    if !(s.stored.Some? && !scan.loads) {
      forall text: string
        ensures text in Known(s) ==> text in Known(s') && Known(s')[text] == Known(s)[text]
        ensures text in s'.memory && s'.stored.Some? && text in s'.stored.value ==> s'.memory[text] == s'.stored.value[text]
        ensures r.Ok? && text in scan.blocks ==> text in s'.memory && text in Known(s') && s'.memory[text] == Known(s')[text]
      {
        ScanAt(rules, s, scan, text);
      }
      if r.Ok? { SameConcatenation(s'.memory, Known(s'), scan.blocks); }
    }
  }

  /** What a scan answers.  A block without an answer needs the model, the model's answer needs to be
      stored when there is a persistent cache, and nothing works when that cache cannot be read. */
  lemma {:induction false} ScanSucceedsIff(rules: Rules, s: State, scan: Scan)
    requires Consistent(s)
    ensures var r := Extracting(rules, s, scan).1;
      var persistent, known := s.stored.Some?, forall text <- scan.blocks :: text in Known(s);
      && (r == Err(LoadFailed) <==> persistent && !scan.loads)
      && (r == Err(ExtractorFailed) <==> (persistent ==> scan.loads) && !known && scan.answer.None?)
      && (r == Err(SaveFailed) <==> persistent && scan.loads && !known && scan.answer.Some? && !scan.saves)
      && (r.Ok? <==> (persistent ==> scan.loads) && (known || (scan.answer.Some? && (persistent ==> scan.saves))))
  {
    hide Loaded, Changed, Remembered, FirstByUrl, Concatenated, Known;
    if s.stored.Some? ==> scan.loads {
      SentIffUnknown(rules, s, scan);
    }
  }

  lemma {:induction false} SentIffUnknown(rules: Rules, s: State, scan: Scan)
    requires Consistent(s) && (s.stored.Some? ==> scan.loads)
    ensures Changed(Loaded(s, scan.blocks), scan.blocks) == [] <==> forall text <- scan.blocks :: text in Known(s)
  {
    hide Loaded, Known, Changed;
    var sent := Changed(Loaded(s, scan.blocks), scan.blocks);
    LoadedIsKnown(s, scan.blocks);
    if sent == [] {
      forall text <- scan.blocks
        ensures text in Known(s)
      {
        var i: nat :| i < |scan.blocks| && scan.blocks[i] == text;
        assert i !in sent;
      }
    } else {
      assert sent[0] in sent && scan.blocks[sent[0]] in scan.blocks;
    }
  }

  lemma {:induction false} ScanAt(rules: Rules, s: State, scan: Scan, text: string)
    requires Consistent(s) && (s.stored.Some? ==> scan.loads)
    ensures var (s', r) := Extracting(rules, s, scan);
      && (text in Known(s) ==> text in Known(s') && Known(s')[text] == Known(s)[text])
      && (text in s'.memory && s'.stored.Some? && text in s'.stored.value ==> s'.memory[text] == s'.stored.value[text])
      && (r.Ok? && text in scan.blocks ==> text in s'.memory && text in Known(s') && s'.memory[text] == Known(s')[text])
  {
    var cache := Loaded(s, scan.blocks);
    var sent := Changed(cache, scan.blocks);
    LoadedIsKnown(s, scan.blocks);
    NewTexts(rules, s, scan, text);
    if sent != [] && scan.answer.Some? {
      RememberedAt(rules, cache, scan.blocks, sent, scan.answer.value, text);
      if s.stored.Some? {
        RememberedAt(rules, s.stored.value, scan.blocks, sent, scan.answer.value, text);
        RememberedTogether(rules, cache, s.stored.value, scan.blocks, sent, scan.answer.value, text);
      }
    }
  }

  // ----- Runs with restarts -----

  /** A restart loses exactly the answers that were never persisted; with none of those it keeps
      every answer. */
  lemma {:induction false} RestartKeepsAnswersIff(s: State)
    requires Consistent(s)
    ensures Consistent(Restarted(s))
    ensures Known(Restarted(s)) == Known(s) <==>
      (s.stored.Some? && s.memory.Keys <= s.stored.value.Keys) || s.memory == map[]
  {
    if s.stored.Some? && Known(Restarted(s)) == Known(s) {
      assert forall text <- s.memory :: text in Known(s);
    }
  }

  /** Everything remembered is also persisted. */
  ghost predicate Persisted(s: State)
  {
    s.stored.Some? && Extends(s.memory, s.stored.value)
  }

  lemma {:induction false} ScanPersists(rules: Rules, s: State, scan: Scan)
    requires Persisted(s) && scan.saves
    ensures Persisted(Extracting(rules, s, scan).0)
  {
    ScanKeepsAnswers(rules, s, scan);
    var (s', r) := Extracting(rules, s, scan);
    if scan.loads {
      forall text <- s'.memory
        ensures text in s'.stored.value && s'.stored.value[text] == s'.memory[text]
      {
        ScanAt(rules, s, scan, text);
        NewTexts(rules, s, scan, text);
        var sent := Sent(s, scan);
        if sent != [] && scan.answer.Some? {
          RememberedAt(rules, Loaded(s, scan.blocks), scan.blocks, sent, scan.answer.value, text);
          RememberedAt(rules, s.stored.value, scan.blocks, sent, scan.answer.value, text);
        }
      }
    }
  }

  datatype Event = Scanned(scan: Scan) | Restart

  function Next(rules: Rules, s: State, e: Event): State
  {
    match e
    case Scanned(scan) => Extracting(rules, s, scan).0
    case Restart => Restarted(s)
  }

  function Run(rules: Rules, s: State, events: seq<Event>): State
    decreases |events|
  {
    if events == [] then s else Run(rules, Next(rules, s, events[0]), events[1..])
  }

  /** Every restart of the run finds all answers stored, or none remembered. */
  ghost predicate RestartsLoseNothing(rules: Rules, s: State, events: seq<Event>)
    decreases |events|
  {
    events != [] ==>
      && (events[0].Restart? ==> s.memory == map[] || (s.stored.Some? && s.memory.Keys <= s.stored.value.Keys))
      && RestartsLoseNothing(rules, Next(rules, s, events[0]), events[1..])
  }

  lemma {:induction false} WithoutRestarts(rules: Rules, s: State, events: seq<Event>)
    requires forall e <- events :: e.Scanned?
    ensures RestartsLoseNothing(rules, s, events)
    decreases |events|
  {
    if events != [] {
      assert events[0] in events;
      assert forall e <- events[1..] :: e in events;
      WithoutRestarts(rules, Next(rules, s, events[0]), events[1..]);
    }
  }

  lemma {:induction false} WithSuccessfulSaves(rules: Rules, s: State, events: seq<Event>)
    requires Persisted(s) && forall e <- events :: e.Scanned? ==> e.scan.saves
    ensures RestartsLoseNothing(rules, s, events)
    decreases |events|
  {
    if events != [] {
      assert events[0] in events;
      assert forall e <- events[1..] :: e in events;
      if events[0].Scanned? { ScanPersists(rules, s, events[0].scan); }
      WithSuccessfulSaves(rules, Next(rules, s, events[0]), events[1..]);
    }
  }

  lemma {:induction false} NextKeepsAnswers(rules: Rules, s: State, e: Event)
    requires Consistent(s) && RestartsLoseNothing(rules, s, [e])
    ensures var s' := Next(rules, s, e);
      Consistent(s') && (s'.stored.Some? <==> s.stored.Some?) && Extends(Known(s), Known(s'))
  {
    match e
    case Scanned(scan) => ScanKeepsAnswers(rules, s, scan);
    case Restart => RestartKeepsAnswersIff(s);
  }

  /** As long as restarts lose nothing, no scan or restart ever changes an answer. */
  lemma {:induction false} AnswersArePermanent(rules: Rules, s: State, events: seq<Event>)
    requires Consistent(s) && RestartsLoseNothing(rules, s, events)
    ensures var s' := Run(rules, s, events);
      Consistent(s') && (s'.stored.Some? <==> s.stored.Some?) && Extends(Known(s), Known(s'))
    decreases |events|
  {
    hide Next, Known, Consistent;
    if events != [] {
      NextKeepsAnswers(rules, s, events[0]);
      AnswersArePermanent(rules, Next(rules, s, events[0]), events[1..]);
    }
  }

  /** A page scanned successfully once is served again without asking the model and with the same
      listings, whatever the model would answer now: after any further scans, failed ones included,
      and any restarts that lose nothing. */
  lemma {:induction false} RescanIsFree(rules: Rules, s: State, scan: Scan, events: seq<Event>, again: Scan)
    requires Consistent(s) && (s.stored.Some? ==> again.loads) && again.blocks == scan.blocks
    requires Extracting(rules, s, scan).1.Ok?
    requires RestartsLoseNothing(rules, Extracting(rules, s, scan).0, events)
    ensures var (s', r) := Extracting(rules, s, scan);
      var later := Run(rules, s', events);
      Sent(later, again) == [] && Extracting(rules, later, again).1 == r
  {
    var (s', r) := Extracting(rules, s, scan);
    ScanKeepsAnswers(rules, s, scan);
    AnswersArePermanent(rules, s', events);
    var later := Run(rules, s', events);
    ScanKeepsAnswers(rules, later, again);
    NothingToSend(later, again);
    SameConcatenation(Known(s'), Known(Extracting(rules, later, again).0), scan.blocks);
  }

  /** Until the process restarts that needs no persistent cache and no successful save. */
  lemma {:induction false} RescanIsFreeUntilRestart(rules: Rules, s: State, scan: Scan, events: seq<Event>, again: Scan)
    requires Consistent(s) && (s.stored.Some? ==> again.loads) && again.blocks == scan.blocks
    requires Extracting(rules, s, scan).1.Ok?
    requires forall e <- events :: e.Scanned?
    ensures var (s', r) := Extracting(rules, s, scan);
      var later := Run(rules, s', events);
      Sent(later, again) == [] && Extracting(rules, later, again).1 == r
  {
    WithoutRestarts(rules, Extracting(rules, s, scan).0, events);
    RescanIsFree(rules, s, scan, events, again);
  }

  /** With a persistent cache whose writes succeed it holds across any restarts. */
  lemma {:induction false} RescanIsFreeAcrossRestarts(rules: Rules, s: State, scan: Scan, events: seq<Event>, again: Scan)
    requires Persisted(s) && scan.saves && again.loads && again.blocks == scan.blocks
    requires Extracting(rules, s, scan).1.Ok?
    requires forall e <- events :: e.Scanned? ==> e.scan.saves
    ensures var (s', r) := Extracting(rules, s, scan);
      var later := Run(rules, s', events);
      Sent(later, again) == [] && Extracting(rules, later, again).1 == r
  {
    ScanPersists(rules, s, scan);
    WithSuccessfulSaves(rules, Extracting(rules, s, scan).0, events);
    RescanIsFree(rules, s, scan, events, again);
  }

  // ----- Which answer is known -----

  function LastPosition(blocks: seq<string>, text: string): (i: nat)
    requires text in blocks
    ensures i < |blocks| && blocks[i] == text && forall j :: i < j < |blocks| ==> blocks[j] != text
  {
    var last := |blocks| - 1;
    if blocks[last] == text then last else LastPosition(blocks[..last], text)
  }

  /** The scan gets an answer for this text, if it has none yet. */
  predicate Answers(persistent: bool, e: Event, text: string)
  {
    e.Scanned? && text in e.scan.blocks && (persistent ==> e.scan.loads) && e.scan.answer.Some?
  }

  /** The listings that the first answering scan of the run attributes to the text. */
  function FirstAnswer(rules: Rules, persistent: bool, events: seq<Event>, text: string): Option<seq<Listing>>
    decreases |events|
  {
    if events == [] then None
    else if Answers(persistent, events[0], text)
    then Some(FreshFor(rules, events[0].scan.answer.value, LastPosition(events[0].scan.blocks, text)))
    else FirstAnswer(rules, persistent, events[1..], text)
  }

  lemma {:induction false} ChangedOrder(cache: Cache, blocks: seq<string>)
    ensures forall j, k :: 0 <= j < k < |Changed(cache, blocks)| ==> Changed(cache, blocks)[j] < Changed(cache, blocks)[k]
  {
    if blocks != [] { ChangedOrder(cache, blocks[..|blocks| - 1]); }
  }

  lemma {:induction false} ChangedLast(cache: Cache, blocks: seq<string>, text: string) returns (k: nat)
    requires text in blocks && text !in cache
    ensures var sent := Changed(cache, blocks);
      && k < |sent| && sent[k] == LastPosition(blocks, text)
      && forall j :: k < j < |sent| ==> blocks[sent[j]] != text
  {
    var sent := Changed(cache, blocks);
    assert LastPosition(blocks, text) in sent;
    k :| 0 <= k < |sent| && sent[k] == LastPosition(blocks, text);
    ChangedOrder(cache, blocks);
  }

  /** An answering scan makes the listings attributed to a new text its answer. */
  lemma {:induction false} ScanAnswers(rules: Rules, s: State, scan: Scan, text: string)
    requires Consistent(s) && text !in Known(s)
    ensures var s' := Extracting(rules, s, scan).0;
      if Answers(s.stored.Some?, Scanned(scan), text)
      then text in Known(s') && Known(s')[text] == FreshFor(rules, scan.answer.value, LastPosition(scan.blocks, text))
      else text !in Known(s')
  {
    if s.stored.Some? && !scan.loads { return; }
    var cache := Loaded(s, scan.blocks);
    var sent := Changed(cache, scan.blocks);
    LoadedIsKnown(s, scan.blocks);
    NewTexts(rules, s, scan, text);
    if sent != [] && scan.answer.Some? {
      RememberedAt(rules, cache, scan.blocks, sent, scan.answer.value, text);
      if s.stored.Some? {
        RememberedAt(rules, s.stored.value, scan.blocks, sent, scan.answer.value, text);
      }
      if text in scan.blocks {
        var k := ChangedLast(cache, scan.blocks, text);
        RememberedFresh(rules, cache, scan.blocks, sent, scan.answer.value, k);
        if s.stored.Some? { RememberedFresh(rules, s.stored.value, scan.blocks, sent, scan.answer.value, k); }
      }
    }
  }

  /** The answer is remembered but not stored. */
  predicate Unsaved(s: State, text: string)
  {
    s.stored.Some? && text in s.memory && text !in s.stored.value
  }

  lemma {:induction false} ScanLeavesUnsaved(rules: Rules, s: State, scan: Scan, text: string)
    requires Consistent(s) && Unsaved(s, text)
    ensures var s' := Extracting(rules, s, scan).0;
      Consistent(s') && Unsaved(s', text) && s'.memory[text] == s.memory[text]
  {
    ScanKeepsAnswers(rules, s, scan);
    if scan.loads {
      NewTexts(rules, s, scan, text);
      var sent := Sent(s, scan);
      LoadedIsKnown(s, scan.blocks);
      if sent != [] && scan.answer.Some? {
        RememberedAt(rules, Loaded(s, scan.blocks), scan.blocks, sent, scan.answer.value, text);
        RememberedAt(rules, s.stored.value, scan.blocks, sent, scan.answer.value, text);
      }
    }
  }

  lemma {:induction false} RunLeavesUnsaved(rules: Rules, s: State, events: seq<Event>, text: string)
    requires Consistent(s) && Unsaved(s, text) && forall e <- events :: e.Scanned?
    ensures var s' := Run(rules, s, events);
      Consistent(s') && Unsaved(s', text) && s'.memory[text] == s.memory[text]
    decreases |events|
  {
    hide Extracting, Consistent;
    if events != [] {
      assert events[0] in events;
      assert forall e <- events[1..] :: e in events;
      ScanLeavesUnsaved(rules, s, events[0].scan, text);
      RunLeavesUnsaved(rules, Next(rules, s, events[0]), events[1..], text);
    }
  }

  /** An answer whose save failed is served until the next restart and then forgotten, whatever is
      scanned and saved in between: its block is never sent again, so it is never stored. */
  lemma {:induction false} FailedSaveIsForgotten(rules: Rules, s: State, scan: Scan, text: string, events: seq<Event>)
    requires Consistent(s) && text !in Known(s) && Answers(s.stored.Some?, Scanned(scan), text)
    requires s.stored.Some? && !scan.saves && forall e <- events :: e.Scanned?
    ensures var s' := Run(rules, Extracting(rules, s, scan).0, events);
      && text in Known(s') && Known(s')[text] == FreshFor(rules, scan.answer.value, LastPosition(scan.blocks, text))
      && text !in Known(Restarted(s'))
  {
    ScanAnswers(rules, s, scan, text);
    ScanKeepsAnswers(rules, s, scan);
    var s1 := Extracting(rules, s, scan).0;
    assert s1.stored == s.stored;
    assert Unsaved(s1, text);
    hide Extracting;
    RunLeavesUnsaved(rules, s1, events, text);
  }

  lemma {:induction false} NextAnswers(rules: Rules, s: State, e: Event, text: string)
    requires Consistent(s) && RestartsLoseNothing(rules, s, [e]) && text !in Known(s)
    ensures var s' := Next(rules, s, e);
      if Answers(s.stored.Some?, e, text)
      then text in Known(s') && Known(s')[text] == FreshFor(rules, e.scan.answer.value, LastPosition(e.scan.blocks, text))
      else text !in Known(s')
  {
    match e
    case Scanned(scan) => ScanAnswers(rules, s, scan, text);
    case Restart => RestartKeepsAnswersIff(s);
  }

  /** After a run a text is known exactly when it was known before or some scan of the run answered
      it, and its answer is the one known before or else the first one given. */
  lemma {:induction false} FirstAnswerIsKept(rules: Rules, s: State, events: seq<Event>, text: string)
    requires Consistent(s) && RestartsLoseNothing(rules, s, events)
    ensures var s', first := Run(rules, s, events), FirstAnswer(rules, s.stored.Some?, events, text);
      if text in Known(s) then text in Known(s') && Known(s')[text] == Known(s)[text]
      else (text in Known(s') <==> first.Some?) && (first.Some? ==> Known(s')[text] == first.value)
    decreases |events|
  {
    hide Next, Known, Consistent, Answers;
    AnswersArePermanent(rules, s, events);
    if events != [] && text !in Known(s) {
      var next := Next(rules, s, events[0]);
      NextAnswers(rules, s, events[0], text);
      NextKeepsAnswers(rules, s, events[0]);
      AnswersArePermanent(rules, next, events[1..]);
      FirstAnswerIsKept(rules, next, events[1..], text);
    }
  }

  /** The first answers of the blocks, joined in block order. */
  function FirstAnswers(rules: Rules, persistent: bool, events: seq<Event>, blocks: seq<string>): seq<Listing>
  {
    if blocks == [] then []
    else
      var last := blocks[|blocks| - 1];
      FirstAnswers(rules, persistent, events, blocks[..|blocks| - 1])
      + FirstAnswer(rules, persistent, events, last).UnwrapOr([])
  }

  /** From a start with nothing known, every successful scan returns, without repeating a URL, the
      first answer ever given for each of its block texts, in block order. */
  lemma {:induction false} ScansServeFirstAnswers(rules: Rules, s: State, events: seq<Event>, scan: Scan)
    requires Known(s) == map[] && RestartsLoseNothing(rules, s, events + [Scanned(scan)])
    requires Extracting(rules, Run(rules, s, events), scan).1.Ok?
    ensures Extracting(rules, Run(rules, s, events), scan).1.value ==
      FirstByUrl(FirstAnswers(rules, s.stored.Some?, events + [Scanned(scan)], scan.blocks))
  {
    assert Consistent(s);
    var all := events + [Scanned(scan)];
    RunAppends(rules, s, events, Scanned(scan));
    AnswersArePermanent(rules, s, events);
    ScanKeepsAnswers(rules, Run(rules, s, events), scan);
    var s' := Run(rules, s, all);
    forall text <- scan.blocks
      ensures text in Known(s') && FirstAnswer(rules, s.stored.Some?, all, text) == Some(Known(s')[text])
    {
      FirstAnswerIsKept(rules, s, all, text);
    }
    JoinedFirstAnswers(rules, s.stored.Some?, all, Known(s'), scan.blocks);
  }

  lemma {:induction false} RunAppends(rules: Rules, s: State, events: seq<Event>, e: Event)
    requires RestartsLoseNothing(rules, s, events + [e])
    ensures RestartsLoseNothing(rules, s, events)
    ensures Run(rules, s, events + [e]) == Next(rules, Run(rules, s, events), e)
    decreases |events|
  {
    hide Next;
    if events == [] {
      assert Run(rules, s, [e]) == Run(rules, Next(rules, s, e), []);
    } else {
      assert (events + [e])[1..] == events[1..] + [e];
      RunAppends(rules, Next(rules, s, events[0]), events[1..], e);
    }
  }

  lemma {:induction false} JoinedFirstAnswers(rules: Rules, persistent: bool, events: seq<Event>, cache: Cache, blocks: seq<string>)
    requires forall text <- blocks :: text in cache && FirstAnswer(rules, persistent, events, text) == Some(cache[text])
    ensures FirstAnswers(rules, persistent, events, blocks) == Concatenated(cache, blocks)
  {
    hide FirstAnswer;
    if blocks != [] {
      assert blocks[|blocks| - 1] in blocks;
      assert forall text <- blocks[..|blocks| - 1] :: text in blocks;
      JoinedFirstAnswers(rules, persistent, events, cache, blocks[..|blocks| - 1]);
    }
  }

  lemma {:induction false} NothingToSend(s: State, scan: Scan)
    requires Consistent(s) && (s.stored.Some? ==> scan.loads) && forall text <- scan.blocks :: text in Known(s)
    ensures Sent(s, scan) == []
  {
    LoadedIsKnown(s, scan.blocks);
    NothingChanged(Loaded(s, scan.blocks), scan.blocks);
  }

  lemma {:induction false} NothingChanged(cache: Cache, blocks: seq<string>)
    requires forall text <- blocks :: text in cache
    ensures Changed(cache, blocks) == []
  {
    if blocks != [] {
      assert blocks[|blocks| - 1] in blocks;
      NothingChanged(cache, blocks[..|blocks| - 1]);
    }
  }

  // ----- The source -----

  lemma {:induction false} LoadedWithoutStore(s: State, blocks: seq<string>)
    ensures s.stored.None? ==> Loaded(s, blocks) == s.memory
  {
  }

  lemma {:induction false} LoadedStep(s: State, blocks: seq<string>, text: string)
    requires s.stored.Some?
    ensures Loaded(s, blocks + [text]) ==
      if text in s.stored.value then Loaded(s, blocks)[text := s.stored.value[text]] else Loaded(s, blocks)
  {
    assert forall x :: x in blocks + [text] <==> x in blocks || x == text;
  }

  /** The extraction half of a generic source: its in-process cache and its rows of
      source_extraction_block_cache. */
  class GenericSource {
    const rules: Rules
    var memory: Cache
    var stored: Option<Cache>

    function View(): State
      reads this
    {
      State(memory, stored)
    }

    constructor (rules: Rules, stored: Option<Cache>)
      ensures this.rules == rules && View() == State(map[], stored)
    {
      this.rules := rules;
      this.memory := map[];
      this.stored := stored;
    }

    /** Returns the block positions put to the model, and the listings. */
    method Extract(scan: Scan) returns (sent: seq<nat>, r: Result<seq<Listing>, Failure>)
      modifies this
      ensures (View(), r) == Extracting(rules, old(View()), scan)
      ensures sent == Sent(old(View()), scan)
    {
      hide Loaded, Changed, Remembered, Concatenated, FirstByUrl;
      var blocks := scan.blocks;
      if stored.Some? {
        if !scan.loads { return [], Err(LoadFailed); }
        LoadBlocks(blocks);
      }
      LoadedWithoutStore(old(View()), blocks);
      assert View() == old(View()).(memory := Loaded(old(View()), blocks));
      sent := FindChanged(blocks);
      if |sent| > 0 {
        if scan.answer.None? { return sent, Err(ExtractorFailed); }
        var answer := scan.answer.value;
        memory := RememberAnswers(memory, blocks, sent, answer);
        if stored.Some? {
          if !scan.saves { return sent, Err(SaveFailed); }
          var persisted := RememberAnswers(stored.value, blocks, sent, answer);
          stored := Some(persisted);
        }
      }
      var listings := Collect(blocks);
      r := Ok(listings);
    }

    method FindChanged(blocks: seq<string>) returns (sent: seq<nat>)
      ensures sent == Changed(memory, blocks)
    {
      sent := [];
      for i := 0 to |blocks|
        invariant sent == Changed(memory, blocks[..i])
      {
        assert blocks[..i + 1][..i] == blocks[..i];
        if blocks[i] !in memory {
          sent := sent + [i];
        }
      }
      assert blocks[..|blocks|] == blocks;
    }

    method LoadBlocks(blocks: seq<string>)
      requires stored.Some?
      modifies this`memory
      ensures memory == Loaded(old(View()), blocks)
    {
      ghost var before := View();
      for i := 0 to |blocks|
        invariant memory == Loaded(before, blocks[..i])
      {
        assert blocks[..i + 1] == blocks[..i] + [blocks[i]];
        LoadedStep(before, blocks[..i], blocks[i]);
        if blocks[i] in stored.value {
          memory := memory[blocks[i] := stored.value[blocks[i]]];
        }
      }
      assert blocks[..|blocks|] == blocks;
    }

    method Attribute(answer: seq<Extracted>, block: nat) returns (listings: seq<Listing>)
      ensures listings == FreshFor(rules, answer, block)
    {
      listings := [];
      for k := 0 to |answer|
        invariant listings == FreshFor(rules, answer[..k], block)
      {
        assert answer[..k + 1][..k] == answer[..k];
        if answer[k].sourceBlock == block {
          var listing := Normalized(rules, answer[k]);
          if listing.Some? {
            listings := listings + [listing.value];
          }
        }
      }
      assert answer[..|answer|] == answer;
    }

    method RememberAnswers(cache: Cache, blocks: seq<string>, sent: seq<nat>, answer: seq<Extracted>)
      returns (cache': Cache)
      requires Positions(sent, blocks)
      ensures cache' == Remembered(rules, cache, blocks, sent, answer)
    {
      cache' := cache;
      for k := 0 to |sent|
        invariant cache' == Remembered(rules, cache, blocks, sent[..k], answer)
      {
        assert sent[..k + 1][..k] == sent[..k];
        var listings := Attribute(answer, sent[k]);
        cache' := cache'[blocks[sent[k]] := listings];
      }
      assert sent[..|sent|] == sent;
    }

    method Collect(blocks: seq<string>) returns (listings: seq<Listing>)
      ensures listings == FirstByUrl(Concatenated(memory, blocks))
    {
      listings := [];
      for i := 0 to |blocks|
        invariant listings == FirstByUrl(Concatenated(memory, blocks[..i]))
      {
        assert blocks[..i + 1][..i] == blocks[..i];
        if blocks[i] in memory {
          ghost var before := Concatenated(memory, blocks[..i]);
          var more := memory[blocks[i]];
          for k := 0 to |more|
            invariant listings == FirstByUrl(before + more[..k])
          {
            assert before + more[..k + 1] == (before + more[..k]) + [more[k]];
            FirstByUrlStep(before + more[..k], more[k]);
            if !HasUrl(listings, more[k].url) {
              listings := listings + [more[k]];
            }
          }
          assert more[..|more|] == more;
        } else {
          assert Concatenated(memory, blocks[..i]) + [] == Concatenated(memory, blocks[..i]);
        }
      }
      assert blocks[..|blocks|] == blocks;
    }
  }
}
