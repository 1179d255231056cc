/** The node annotations written by the HAMi registration, and their clearing when the
    node's chip is registered under another common word. */
module NodeRegistration {
  import opened ConfigSelection
  import Manager

  type Annotations = map<string, string>

  const CORE_KEY := "hami-vnpu-core"

  function RegisterKey(word: string): string { "hami.io/node-register-" + word }

  function HandshakeKey(word: string): string { "hami.io/node-handshake-" + word }

  lemma KeysDiffer(a: string, b: string)
    ensures RegisterKey(a) == RegisterKey(b) <==> a == b
    ensures HandshakeKey(a) == HandshakeKey(b) <==> a == b
    ensures RegisterKey(a) != HandshakeKey(b)
    ensures RegisterKey(a) != CORE_KEY && HandshakeKey(a) != CORE_KEY
  {
    var n := |"hami.io/node-register-"|;
    assert RegisterKey(a)[n..] == a && RegisterKey(b)[n..] == b;
    assert HandshakeKey(a)[n + 1..] == a && HandshakeKey(b)[n + 1..] == b;
    assert RegisterKey(a)[13] == 'r' && HandshakeKey(b)[13] == 'h';
    assert RegisterKey(a)[4] == '.' && HandshakeKey(a)[4] == '.' && CORE_KEY[4] == '-';
  }

  predicate Stale(word: string, current: string, words: seq<string>) {
    word in words && word != "" && word != current
  }

  ghost predicate StaleRegister(key: string, current: string, words: seq<string>) {
    exists w :: Stale(w, current, words) && key == RegisterKey(w)
  }

  ghost predicate StaleHandshake(key: string, current: string, words: seq<string>) {
    exists w :: Stale(w, current, words) && key == HandshakeKey(w)
  }

  /** `clears` empties the annotations present under a stale word, and nothing else. */
  ghost predicate AreClears(annos: Annotations, current: string, words: seq<string>, clears: Annotations) {
    && (forall k :: k in clears <==>
          k in annos && (StaleRegister(k, current, words) || StaleHandshake(k, current, words)))
    && (forall k :: k in clears ==> clears[k] == if StaleRegister(k, current, words) then "[]" else "")
  }

  /** The clears after one more stale word. */
  function ClearWord(annos: Annotations, word: string, clears: Annotations): Annotations {
    var withReg := if RegisterKey(word) in annos then clears[RegisterKey(word) := "[]"] else clears;
    if HandshakeKey(word) in annos then withReg[HandshakeKey(word) := ""] else withReg
  }

  lemma ClearsNextAt(annos: Annotations, current: string, words: seq<string>, i: nat, clears: Annotations, k: string)
    requires i < |words| && AreClears(annos, current, words[..i], clears)
    ensures var after := if words[i] == "" || words[i] == current then clears else ClearWord(annos, words[i], clears);
      var more := words[..i + 1];
      && (k in after <==> k in annos && (StaleRegister(k, current, more) || StaleHandshake(k, current, more)))
      && (k in after ==> after[k] == if StaleRegister(k, current, more) then "[]" else "")
  {
    StaleSnoc(current, words, i, k);
    if words[i] != "" && words[i] != current {
      KeysDiffer(words[i], words[i]);
      NotStaleRegister(current, words[..i], words[i]);
    }
  }

  lemma ClearsNext(annos: Annotations, current: string, words: seq<string>, i: nat, clears: Annotations)
    requires i < |words| && AreClears(annos, current, words[..i], clears)
    ensures AreClears(annos, current, words[..i + 1],
                      if words[i] == "" || words[i] == current then clears else ClearWord(annos, words[i], clears))
  {
    forall k { ClearsNextAt(annos, current, words, i, clears, k); }
  }

  method StaleRegisterAnnotations(annos: Annotations, current: string, words: seq<string>) returns (clears: Annotations)
    ensures AreClears(annos, current, words, clears)
  {
    clears := map[];
    for i := 0 to |words|
      invariant AreClears(annos, current, words[..i], clears)
    {
      var word := words[i];
      ClearsNext(annos, current, words, i, clears);
      if word == "" || word == current {
        continue;
      }
      var reg, hs := RegisterKey(word), HandshakeKey(word);
      if reg in annos {
        clears := clears[reg := "[]"];
      }
      if hs in annos {
        clears := clears[hs := ""];
      }
    }
    assert words[..|words|] == words;
  }

  lemma NotStaleRegister(current: string, words: seq<string>, word: string)
    ensures !StaleRegister(HandshakeKey(word), current, words)
    ensures !StaleHandshake(RegisterKey(word), current, words)
  {
    forall w ensures RegisterKey(w) != HandshakeKey(word) && HandshakeKey(w) != RegisterKey(word) {
      KeysDiffer(w, word);
      KeysDiffer(word, w);
    }
  }

  lemma StaleSnoc(current: string, words: seq<string>, i: nat, k: string)
    requires i < |words|
    ensures StaleRegister(k, current, words[..i + 1]) <==>
      StaleRegister(k, current, words[..i]) || (words[i] != "" && words[i] != current && k == RegisterKey(words[i]))
    ensures StaleHandshake(k, current, words[..i + 1]) <==>
      StaleHandshake(k, current, words[..i]) || (words[i] != "" && words[i] != current && k == HandshakeKey(words[i]))
  {
    var more := words[..i + 1];
    assert more == words[..i] + [words[i]];
    forall w
      ensures Stale(w, current, more) <==> Stale(w, current, words[..i]) || (w == words[i] && w != "" && w != current)
    {
    }
  }

  // ----- one registration

  /** One `registerHAMi` call: the manager's config list and entry, the device list and time
      stamp it reports, and whether the node is found and the patch succeeds. */
  datatype Registration = Registration(
    configs: seq<VNPUConfig>,
    config: VNPUConfig,
    data: string,
    stamp: string,
    core: bool,
    found: bool,
    patched: bool)

  function Succeeds(reg: Registration): bool { reg.found && reg.patched }

  function Fresh(reg: Registration): Annotations {
    map[RegisterKey(reg.config.commonWord) := reg.data,
        HandshakeKey(reg.config.commonWord) := "Reported_" + reg.stamp,
        CORE_KEY := if reg.core then "true" else "false"]
  }

  /** The annotations after the call: a failed one changes nothing. */
  ghost predicate Registered(before: Annotations, reg: Registration, after: Annotations) {
    if Succeeds(reg) then
      exists clears :: AreClears(before, reg.config.commonWord, Manager.StaleWords(reg.configs, reg.config), clears)
        && after == before + (Fresh(reg) + clears)
    else after == before
  }

  class NodeRecord {
    var annotations: Annotations

    constructor (annos: Annotations)
      ensures annotations == annos
    {
      annotations := annos;
    }
  }

  method RegisterHAMi(node: NodeRecord, mgr: Manager.AscendManager, reg: Registration) returns (ok: bool)
    requires reg.config == mgr.config && reg.configs == mgr.configs
    modifies node
    ensures ok == Succeeds(reg)
    ensures Registered(old(node.annotations), reg, node.annotations)
  {
    var annos: Annotations := map[];
    annos := annos[RegisterKey(mgr.config.commonWord) := reg.data];
    annos := annos[HandshakeKey(mgr.config.commonWord) := "Reported_" + reg.stamp];
    if reg.core {
      annos := annos[CORE_KEY := "true"];
    } else {
      annos := annos[CORE_KEY := "false"];
    }
    assert annos == Fresh(reg) by {
      KeysDiffer(reg.config.commonWord, reg.config.commonWord);
    }
    if !reg.found {
      return false;
    }
    var words := mgr.StaleRegisterCommonWords();
    var clears := StaleRegisterAnnotations(node.annotations, mgr.config.commonWord, words);
    annos := annos + clears;
    if !reg.patched {
      return false;
    }
    node.annotations := node.annotations + annos;
    return true;
  }

  // ----- what a successful registration leaves

  /** The words of the entries that share `chip`. */
  predicate ChipWord(configs: seq<VNPUConfig>, chip: string, word: string) {
    word != "" && exists i :: 0 <= i < |configs| && configs[i].chipName == chip && configs[i].commonWord == word
  }

  predicate Silent(annos: Annotations, word: string) {
    RegisterKey(word) in annos ==> annos[RegisterKey(word)] == "[]"
  }

  /** Keys that a registration for `chip` may write. */
  predicate ChipKey(configs: seq<VNPUConfig>, chip: string, current: string, key: string) {
    key == CORE_KEY || key == RegisterKey(current) || key == HandshakeKey(current)
    || exists i :: 0 <= i < |configs| && configs[i].chipName == chip && configs[i].commonWord != "" &&
         (key == RegisterKey(configs[i].commonWord) || key == HandshakeKey(configs[i].commonWord))
  }

  /** The same words for the same chips; only the order of templates may differ. */
  predicate SameSKUs(a: seq<VNPUConfig>, b: seq<VNPUConfig>) {
    |a| == |b| && forall i :: 0 <= i < |a| ==> a[i].commonWord == b[i].commonWord && a[i].chipName == b[i].chipName
  }

  lemma StaleIsChipWord(configs: seq<VNPUConfig>, reg: Registration, w: string)
    requires SameSKUs(reg.configs, configs)
    ensures Stale(w, reg.config.commonWord, Manager.StaleWords(reg.configs, reg.config)) <==>
      reg.config.chipName != "" && ChipWord(configs, reg.config.chipName, w) && w != reg.config.commonWord
  {
    Manager.StaleWordsExact(reg.configs, reg.config, w);
  }

  lemma CurrentIsFresh(before: Annotations, reg: Registration, after: Annotations)
    requires Succeeds(reg) && Registered(before, reg, after)
    ensures var key := RegisterKey(reg.config.commonWord); key in after && after[key] == reg.data
    ensures var key := HandshakeKey(reg.config.commonWord); key in after && after[key] == "Reported_" + reg.stamp
    ensures "hami-vnpu-core" in after && after["hami-vnpu-core"] == if reg.core then "true" else "false"
  {
    var current, words := reg.config.commonWord, Manager.StaleWords(reg.configs, reg.config);
    var clears :| AreClears(before, current, words, clears) && after == before + (Fresh(reg) + clears);
    NotStaleRegister(current, words, current);
    KeysDiffer(current, current);
    forall w | Stale(w, current, words)
      ensures RegisterKey(w) != RegisterKey(current) && HandshakeKey(w) != HandshakeKey(current)
      ensures RegisterKey(w) != CORE_KEY && HandshakeKey(w) != CORE_KEY
    {
      KeysDiffer(w, current);
    }
  }

  lemma NamelessHasNoWords(reg: Registration)
    requires reg.config.chipName == ""
    ensures Manager.StaleWords(reg.configs, reg.config) == []
  {
    var words := Manager.StaleWords(reg.configs, reg.config);
    if words != [] {
      Manager.StaleWordsExact(reg.configs, reg.config, words[0]);
    }
  }

  lemma NoClears(annos: Annotations, current: string, clears: Annotations)
    requires AreClears(annos, current, [], clears)
    ensures clears == map[]
  {
    forall k ensures k !in clears {
      assert !StaleRegister(k, current, []) && !StaleHandshake(k, current, []);
    }
  }

  /** Without a chip name, as an entry selected by its device type may be, nothing is stale. */
  lemma NamelessClearsNothing(before: Annotations, reg: Registration, after: Annotations)
    requires Succeeds(reg) && Registered(before, reg, after) && reg.config.chipName == ""
    ensures after == before + Fresh(reg)
  {
    var current, words := reg.config.commonWord, Manager.StaleWords(reg.configs, reg.config);
    var clears :| AreClears(before, current, words, clears) && after == before + (Fresh(reg) + clears);
    NamelessHasNoWords(reg);
    NoClears(before, current, clears);
    assert Fresh(reg) + map[] == Fresh(reg);
  }

  /** A success leaves another word of the chip absent or "[]" exactly when the chip has a name
      or the word was so before. */
  lemma OthersAreSilentIff(configs: seq<VNPUConfig>, before: Annotations, reg: Registration, after: Annotations,
                           w: string)
    requires SameSKUs(reg.configs, configs)
    requires Succeeds(reg) && Registered(before, reg, after)
    requires ChipWord(configs, reg.config.chipName, w) && w != reg.config.commonWord
    ensures Silent(after, w) <==> reg.config.chipName != "" || Silent(before, w)
  {
    var current, words := reg.config.commonWord, Manager.StaleWords(reg.configs, reg.config);
    KeysDiffer(w, current);
    if reg.config.chipName == "" {
      NamelessClearsNothing(before, reg, after);
    } else {
      StaleIsChipWord(configs, reg, w);
      assert StaleRegister(RegisterKey(w), current, words);
    }
  }

  /** Of another word of a named chip a success leaves no more than there was, emptied. */
  lemma OthersAreEmptied(configs: seq<VNPUConfig>, before: Annotations, reg: Registration, after: Annotations,
                         w: string)
    requires SameSKUs(reg.configs, configs) && reg.config.chipName != ""
    requires Succeeds(reg) && Registered(before, reg, after)
    requires ChipWord(configs, reg.config.chipName, w) && w != reg.config.commonWord
    ensures RegisterKey(w) in after <==> RegisterKey(w) in before
    ensures RegisterKey(w) in after ==> after[RegisterKey(w)] == "[]"
    ensures HandshakeKey(w) in after <==> HandshakeKey(w) in before
    ensures HandshakeKey(w) in after ==> after[HandshakeKey(w)] == ""
  {
    var current, words := reg.config.commonWord, Manager.StaleWords(reg.configs, reg.config);
    var clears :| AreClears(before, current, words, clears) && after == before + (Fresh(reg) + clears);
    StaleIsChipWord(configs, reg, w);
    KeysDiffer(w, current);
    KeysDiffer(current, w);
    NotStaleRegister(current, words, w);
    assert StaleRegister(RegisterKey(w), current, words) && StaleHandshake(HandshakeKey(w), current, words);
  }

  lemma OthersAreKept(configs: seq<VNPUConfig>, before: Annotations, reg: Registration, after: Annotations, key: string)
    requires SameSKUs(reg.configs, configs)
    requires Succeeds(reg) && Registered(before, reg, after)
    requires !ChipKey(configs, reg.config.chipName, reg.config.commonWord, key)
    ensures key in before <==> key in after
    ensures key in before ==> after[key] == before[key]
  {
    var current, words := reg.config.commonWord, Manager.StaleWords(reg.configs, reg.config);
    var clears :| AreClears(before, current, words, clears) && after == before + (Fresh(reg) + clears);
    if key in clears {
      var w :| Stale(w, current, words) && (key == RegisterKey(w) || key == HandshakeKey(w));
      StaleIsChipWord(configs, reg, w);
    }
  }

  /** Registering again finds the same annotations to clear, and changes nothing when the
      report is the same. */
  lemma RepeatIsStable(before: Annotations, reg: Registration, after: Annotations, clears: Annotations)
    requires AreClears(before, reg.config.commonWord, Manager.StaleWords(reg.configs, reg.config), clears)
    requires after == before + (Fresh(reg) + clears)
    ensures AreClears(after, reg.config.commonWord, Manager.StaleWords(reg.configs, reg.config), clears)
    ensures after + (Fresh(reg) + clears) == after
  {
    var current, words := reg.config.commonWord, Manager.StaleWords(reg.configs, reg.config);
    forall w | Stale(w, current, words)
      ensures RegisterKey(w) !in Fresh(reg) && HandshakeKey(w) !in Fresh(reg)
    {
      KeysDiffer(w, current);
      KeysDiffer(current, w);
    }
  }

  // ----- histories of SKU switches

  /** A registration of an entry of `chip`, by a manager that loaded `configs`. */
  predicate ForChip(configs: seq<VNPUConfig>, chip: string, reg: Registration) {
    SameSKUs(reg.configs, configs) && reg.config in reg.configs && reg.config.chipName == chip
  }

  /** `annos[i + 1]` are the annotations after registration `i`. */
  ghost predicate History(configs: seq<VNPUConfig>, chip: string, regs: seq<Registration>, annos: seq<Annotations>) {
    && |annos| == |regs| + 1
    && forall i :: 0 <= i < |regs| ==> ForChip(configs, chip, regs[i]) && Registered(annos[i], regs[i], annos[i + 1])
  }

  lemma HistoryFront(configs: seq<VNPUConfig>, chip: string, regs: seq<Registration>, annos: seq<Annotations>)
    requires regs != [] && History(configs, chip, regs, annos)
    ensures var n := |regs| - 1;
      History(configs, chip, regs[..n], annos[..n + 1]) && ForChip(configs, chip, regs[n])
      && Registered(annos[n], regs[n], annos[n + 1])
  {
    var n := |regs| - 1;
    assert forall i :: 0 <= i < n ==> regs[..n][i] == regs[i];
  }

  /** Over any history of switches among the entries of one chip, with any failures: after
      the last success at most the current word has a live registration, the one just
      reported. */
  lemma {:induction false} OneLiveWord(configs: seq<VNPUConfig>, chip: string, regs: seq<Registration>,
                                       annos: seq<Annotations>, last: nat)
    requires chip != "" && History(configs, chip, regs, annos)
    requires last < |regs| && Succeeds(regs[last]) && forall i :: last < i < |regs| ==> !Succeeds(regs[i])
    ensures var now, word := annos[|regs|], regs[last].config.commonWord;
      && RegisterKey(word) in now && now[RegisterKey(word)] == regs[last].data
      && (forall w :: ChipWord(configs, chip, w) && w != word ==> Silent(now, w))
  {
    var n := |regs| - 1;
    HistoryFront(configs, chip, regs, annos);
    if n == last {
      CurrentIsFresh(annos[last], regs[last], annos[last + 1]);
      forall w | ChipWord(configs, chip, w) && w != regs[last].config.commonWord ensures Silent(annos[last + 1], w) {
        OthersAreSilentIff(configs, annos[last], regs[last], annos[last + 1], w);
      }
    } else {
      OneLiveWord(configs, chip, regs[..n], annos[..n + 1], last);
    }
  }

  predicate Unrelated(configs: seq<VNPUConfig>, chip: string, key: string) {
    key != CORE_KEY && forall i :: 0 <= i < |configs| && configs[i].chipName == chip ==>
      key != RegisterKey(configs[i].commonWord) && key != HandshakeKey(configs[i].commonWord)
  }

  lemma {:induction false} UnrelatedUntouched(configs: seq<VNPUConfig>, chip: string, regs: seq<Registration>,
                                              annos: seq<Annotations>, key: string)
    requires History(configs, chip, regs, annos) && Unrelated(configs, chip, key)
    ensures key in annos[0] <==> key in annos[|regs|]
    ensures key in annos[0] ==> annos[|regs|][key] == annos[0][key]
  {
    if regs != [] {
      var n := |regs| - 1;
      HistoryFront(configs, chip, regs, annos);
      UnrelatedUntouched(configs, chip, regs[..n], annos[..n + 1], key);
      if Succeeds(regs[n]) {
        var i :| 0 <= i < |regs[n].configs| && regs[n].configs[i] == regs[n].config;
        assert configs[i].commonWord == regs[n].config.commonWord;
        OthersAreKept(configs, annos[n], regs[n], annos[n + 1], key);
      }
    }
  }
}
