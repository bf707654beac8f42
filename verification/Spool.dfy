/** The recovery spool and the terminal-message ledger as files in a directory. */
module Spool {
  import opened Registry

  datatype DeliveryKind = AnalysisComplete | JobPostingFinalize

  /** A pending delivery as stored; everything but its identity is opaque here. */
  type Details(==, !new)

  datatype StoredEntry = StoredEntry(taskId: string, deliveryKind: DeliveryKind, details: Details)
  {
    function Key(): EntryKey { EntryKey(taskId, deliveryKind) }
  }

  datatype EntryKey = EntryKey(taskId: string, deliveryKind: DeliveryKind)
  {
    /** The key under which the spool files an entry; the key itself when the task id is safe. */
    function Canonical(): EntryKey { EntryKey(Sanitize(taskId), deliveryKind) }
  }

  /** A file holds what was written to it, or what a crash left of that. */
  datatype File<T> = Whole(entry: T) | Torn

  type Directory = map<string, File<StoredEntry>>

  predicate SafeChar(c: char) {
    'A' <= c <= 'Z' || 'a' <= c <= 'z' || '0' <= c <= '9' || c == '.' || c == '_' || c == '-'
  }

  predicate SafeId(s: string) { forall i :: 0 <= i < |s| ==> SafeChar(s[i]) }

  /** Every character outside the safe alphabet becomes an underscore. */
  function Sanitize(s: string): string {
    seq(|s|, i requires 0 <= i < |s| => if SafeChar(s[i]) then s[i] else '_')
  }

  function KindName(k: DeliveryKind): string {
    match k
    case AnalysisComplete => "analysis_complete"
    case JobPostingFinalize => "job_posting_finalize"
  }

  function Stem(k: EntryKey): string { KindName(k.deliveryKind) + "-" + Sanitize(k.taskId) }

  function FileName(k: EntryKey): string { Stem(k) + ".json" }

  function TempName(k: EntryKey): string { Stem(k) + ".tmp" }

  predicate IsEntryName(name: string) { |name| >= 5 && name[|name| - 5..] == ".json" }

  // ----- File names -----

  lemma SanitizeSafe(s: string)
    ensures SafeId(Sanitize(s)) && (SafeId(s) ==> Sanitize(s) == s)
  {}

  lemma SuffixCancels(a: string, b: string, suffix: string)
    requires a + suffix == b + suffix
    ensures a == b
  {
    assert |a| == |b|;
    assert a == (a + suffix)[..|a|] && b == (b + suffix)[..|b|];
  }

  lemma PrefixCancels(prefix: string, a: string, b: string)
    requires prefix + a == prefix + b
    ensures a == b
  {
    assert a == (prefix + a)[|prefix|..] && b == (prefix + b)[|prefix|..];
  }

  lemma SameStem(k: EntryKey, l: EntryKey)
    ensures Stem(k) == Stem(l) <==> k.deliveryKind == l.deliveryKind && Sanitize(k.taskId) == Sanitize(l.taskId)
  {
    if Stem(k) == Stem(l) {
      assert Stem(k)[0] == KindName(k.deliveryKind)[0] && Stem(l)[0] == KindName(l.deliveryKind)[0];
      PrefixCancels(KindName(k.deliveryKind) + "-", Sanitize(k.taskId), Sanitize(l.taskId));
    }
  }

  /** Two keys share a file exactly when they are filed under the same key; over the safe alphabet only a key
      itself leads to its file. */
  lemma FileNamesCollide(k: EntryKey, l: EntryKey)
    ensures FileName(k) == FileName(l) <==> k.Canonical() == l.Canonical()
    ensures FileName(k.Canonical()) == FileName(k)
    ensures SafeId(k.taskId) && SafeId(l.taskId) && FileName(k) == FileName(l) ==> k == l
  {
    SameStem(k, l);
    if FileName(k) == FileName(l) {
      SuffixCancels(Stem(k), Stem(l), ".json");
    }
    SanitizeSafe(k.taskId);
    SanitizeSafe(l.taskId);
    SanitizeSafe(Sanitize(k.taskId));
  }

  /** `name` is `id` with an underscore for everything but letters, digits, dots, underscores and hyphens. */
  ghost predicate Cleaned(name: string, id: string) {
    |name| == |id| && forall i :: 0 <= i < |id| ==>
      name[i] == (if 'A' <= id[i] <= 'Z' || 'a' <= id[i] <= 'z' || '0' <= id[i] <= '9'
                     || id[i] == '.' || id[i] == '_' || id[i] == '-' then id[i] else '_')
  }

  /** The names under which an entry and a ledger record are filed. */
  lemma NamesOf(taskId: string, messageId: string) returns (task: string, message: string)
    ensures Cleaned(task, taskId) && Cleaned(message, messageId)
    ensures FileName(EntryKey(taskId, AnalysisComplete)) == "analysis_complete-" + task + ".json"
    ensures FileName(EntryKey(taskId, JobPostingFinalize)) == "job_posting_finalize-" + task + ".json"
    ensures LedgerName(taskId, messageId) == task + "__" + message + ".json"
  {
    task, message := Sanitize(taskId), Sanitize(messageId);
    assert "analysis_complete" + "-" == "analysis_complete-";
    assert "job_posting_finalize" + "-" == "job_posting_finalize-";
  }

  lemma NameShapes(k: EntryKey)
    ensures IsEntryName(FileName(k)) && !IsEntryName(TempName(k))
  {
    assert FileName(k)[|FileName(k)| - 5..] == ".json";
    assert TempName(k)[|TempName(k)| - 1] == 'p';
  }

  // ----- The directory as a map -----

  /** Every entry file is whole and sits under its own name. */
  ghost predicate Sound(files: Directory) {
    forall n :: n in files && IsEntryName(n) ==> files[n].Whole? && FileName(files[n].entry.Key()) == n
  }

  /** What the directory means, by canonical key. */
  ghost function Contents(files: Directory): map<EntryKey, StoredEntry>
    requires Sound(files)
  {
    map n | n in (set f | f in files && IsEntryName(f) :: files[f].entry.Key().Canonical())
            && FileName(n) in files && files[FileName(n)].Whole?
      :: files[FileName(n)].entry
  }

  lemma ContentsAt(files: Directory, k: EntryKey)
    requires Sound(files)
    ensures k.Canonical() in Contents(files) <==> FileName(k) in files
    ensures k.Canonical() in Contents(files) ==>
      && Contents(files)[k.Canonical()] == files[FileName(k)].entry
      && Contents(files)[k.Canonical()].Key().Canonical() == k.Canonical()
  {
    NameShapes(k);
    FileNamesCollide(k, k);
    if FileName(k) in files {
      FileNamesCollide(k, files[FileName(k)].entry.Key());
    }
  }

  lemma ContentsCanonical(files: Directory, k: EntryKey)
    requires Sound(files) && k in Contents(files)
    ensures k.Canonical() == k
  {
    var f :| f in files && IsEntryName(f) && files[f].entry.Key().Canonical() == k;
    SanitizeSafe(files[f].entry.taskId);
    SanitizeSafe(k.taskId);
  }

  /** A directory whose entry files agree with a map on every key means that map. */
  lemma SameContents(files: Directory, m: map<EntryKey, StoredEntry>)
    requires Sound(files)
    requires forall k: EntryKey :: k in m ==> k.Canonical() == k
    requires forall k: EntryKey :: k.Canonical() == k ==>
      (k in m <==> FileName(k) in files) && (k in m ==> files[FileName(k)] == Whole(m[k]))
    ensures Contents(files) == m
  {
    forall k: EntryKey ensures k in Contents(files) <==> k in m {
      if k in Contents(files) { ContentsCanonical(files, k); }
      if k.Canonical() == k { ContentsAt(files, k); }
    }
    forall k | k in m ensures Contents(files)[k] == m[k] {
      ContentsAt(files, k);
    }
  }

  // ----- Writing, step by step -----

  /** The directory after each step of writing `e`: the temporary file half written, whole, and renamed. */
  function WriteSteps(files: Directory, e: StoredEntry): seq<Directory> {
    var temp := TempName(e.Key());
    [files,
     files[temp := Torn],
     files[temp := Whole(e)],
     (files - {temp})[FileName(e.Key()) := Whole(e)]]
  }

  /** `files'` differs from `files` in the file of `e` alone, among the entry files. */
  ghost predicate Replaced(files: Directory, files': Directory, e: StoredEntry) {
    && (forall n :: IsEntryName(n) && n != FileName(e.Key()) ==>
          (n in files' <==> n in files) && (n in files ==> files'[n] == files[n]))
    && FileName(e.Key()) in files' && files'[FileName(e.Key())] == Whole(e)
  }

  lemma ReplacedSound(files: Directory, files': Directory, e: StoredEntry)
    requires Sound(files) && Replaced(files, files', e)
    ensures Sound(files')
  {}

  lemma ReplacedAt(files: Directory, files': Directory, e: StoredEntry, k: EntryKey)
    requires Sound(files) && Replaced(files, files', e) && k.Canonical() == k
    ensures var m := Contents(files)[e.Key().Canonical() := e];
      (k in m <==> FileName(k) in files') && (k in m ==> files'[FileName(k)] == Whole(m[k]))
  {
    ContentsAt(files, k);
    FileNamesCollide(k, e.Key());
    NameShapes(k);
  }

  lemma ReplacedContents(files: Directory, files': Directory, e: StoredEntry)
    requires Sound(files) && Replaced(files, files', e)
    ensures Sound(files') && Contents(files') == Contents(files)[e.Key().Canonical() := e]
  {
    var m := Contents(files)[e.Key().Canonical() := e];
    ReplacedSound(files, files', e);
    forall k: EntryKey | k.Canonical() == k
      ensures (k in m <==> FileName(k) in files') && (k in m ==> files'[FileName(k)] == Whole(m[k]))
    {
      ReplacedAt(files, files', e, k);
    }
    SanitizeSafe(e.taskId);
    SanitizeSafe(Sanitize(e.taskId));
    forall k | k in m ensures k.Canonical() == k {
      if k in Contents(files) { ContentsCanonical(files, k); }
    }
    SameContents(files', m);
  }

  lemma SameEntryFiles(files: Directory, files': Directory)
    requires Sound(files)
    requires forall n :: IsEntryName(n) ==> (n in files' <==> n in files) && (n in files ==> files'[n] == files[n])
    ensures Sound(files') && Contents(files') == Contents(files)
  {
    forall k: EntryKey | k.Canonical() == k
      ensures k in Contents(files) <==> FileName(k) in files'
      ensures k in Contents(files) ==> files'[FileName(k)] == Whole(Contents(files)[k])
    {
      ContentsAt(files, k);
      NameShapes(k);
    }
    forall k | k in Contents(files) ensures k.Canonical() == k { ContentsCanonical(files, k); }
    SameContents(files', Contents(files));
  }

  /** A crash inside a write leaves the old entry or the new one, and nothing else changed. */
  lemma WriteIsAtomic(files: Directory, e: StoredEntry, i: nat)
    requires Sound(files) && i < 4
    ensures Sound(WriteSteps(files, e)[i])
    ensures Contents(WriteSteps(files, e)[i]) ==
      if i < 3 then Contents(files) else Contents(files)[e.Key().Canonical() := e]
  {
    NameShapes(e.Key());
    if i < 3 {
      SameEntryFiles(files, WriteSteps(files, e)[i]);
    } else {
      ReplacedContents(files, WriteSteps(files, e)[3], e);
    }
  }

  lemma RemovedAt(files: Directory, k: EntryKey, l: EntryKey)
    requires Sound(files) && l.Canonical() == l
    ensures var files' := files - {FileName(k)}; var m := Contents(files) - {k.Canonical()};
      (l in m <==> FileName(l) in files') && (l in m ==> files'[FileName(l)] == Whole(m[l]))
  {
    ContentsAt(files, l);
    FileNamesCollide(l, k);
    NameShapes(l);
  }

  lemma RemovedContents(files: Directory, k: EntryKey)
    requires Sound(files)
    ensures Sound(files - {FileName(k)}) && Contents(files - {FileName(k)}) == Contents(files) - {k.Canonical()}
  {
    var files' := files - {FileName(k)};
    var m := Contents(files) - {k.Canonical()};
    forall l: EntryKey | l.Canonical() == l
      ensures (l in m <==> FileName(l) in files') && (l in m ==> files'[FileName(l)] == Whole(m[l]))
    {
      RemovedAt(files, k, l);
    }
    forall l | l in m ensures l.Canonical() == l { ContentsCanonical(files, l); }
    SameContents(files', m);
  }

  // ----- The order of a listing -----

  /** The order of names by code points. */
  predicate Below(a: string, b: string) {
    b != "" && (a == "" || a[0] < b[0] || (a[0] == b[0] && Below(a[1..], b[1..])))
  }

  lemma {:induction false} NotBelowItself(a: string)
    ensures !Below(a, a)
  {
    if a != "" {
      NotBelowItself(a[1..]);
    }
  }

  lemma {:induction false} BelowIsTotal(a: string, b: string)
    ensures Below(a, b) || a == b || Below(b, a)
  {
    if a != "" && b != "" {
      BelowIsTotal(a[1..], b[1..]);
      assert a == [a[0]] + a[1..] && b == [b[0]] + b[1..];
    }
  }

  lemma {:induction false} BelowIsTransitive(a: string, b: string, c: string)
    requires Below(a, b) && Below(b, c)
    ensures Below(a, c)
  {
    if a != "" && a[0] == b[0] && b[0] == c[0] {
      BelowIsTransitive(a[1..], b[1..], c[1..]);
    }
  }

  ghost predicate Least(n: string, names: set<string>) {
    n in names && forall m :: m in names ==> m == n || Below(n, m)
  }

  lemma {:induction false} LeastExists(names: set<string>) returns (n: string)
    requires names != {}
    ensures Least(n, names)
    decreases |names|
  {
    n :| n in names;
    var rest := names - {n};
    if rest != {} {
      var m := LeastExists(rest);
      BelowIsTotal(m, n);
      if Below(m, n) {
        n := m;
      } else {
        forall k | k in rest && k != m ensures Below(n, k) {
          BelowIsTransitive(n, m, k);
        }
      }
    }
  }

  function EntryNames(files: Directory): set<string> { set n | n in files && IsEntryName(n) }

  /** The entries of the files named in `done`, in the order of the names. */
  ghost predicate Listed(files: Directory, done: set<string>, entries: seq<StoredEntry>) {
    && done <= EntryNames(files)
    && (forall n :: n in done ==> files[n].Whole? && files[n].entry in entries)
    && (forall i :: 0 <= i < |entries| ==>
          FileName(entries[i].Key()) in done && files[FileName(entries[i].Key())] == Whole(entries[i]))
    && (forall i, j :: 0 <= i < j < |entries| ==> Below(FileName(entries[i].Key()), FileName(entries[j].Key())))
  }

  lemma ListedOneMore(files: Directory, done: set<string>, entries: seq<StoredEntry>, n: string)
    requires Sound(files) && Listed(files, done, entries)
    requires n in EntryNames(files) && forall m :: m in done ==> Below(m, n)
    ensures Listed(files, done + {n}, entries + [files[n].entry])
  {
    var more := entries + [files[n].entry];
    assert FileName(files[n].entry.Key()) == n;
    forall m | m in done + {n} ensures files[m].Whole? && files[m].entry in more {
      assert more[|entries|] == files[n].entry;
    }
    forall i, j | 0 <= i < j < |more| ensures Below(FileName(more[i].Key()), FileName(more[j].Key())) {
      assert FileName(entries[i].Key()) in done;
    }
  }

  lemma ListedAll(files: Directory, entries: seq<StoredEntry>)
    requires Sound(files) && Listed(files, EntryNames(files), entries)
    ensures forall k :: k in Contents(files) ==> Contents(files)[k] in entries
    ensures forall i :: 0 <= i < |entries| ==>
      entries[i].Key().Canonical() in Contents(files) && Contents(files)[entries[i].Key().Canonical()] == entries[i]
    ensures forall i, j :: 0 <= i < j < |entries| ==> entries[i].Key().Canonical() != entries[j].Key().Canonical()
  {
    forall k | k in Contents(files) ensures Contents(files)[k] in entries {
      ContentsCanonical(files, k);
      ContentsAt(files, k);
      NameShapes(k);
    }
    forall i | 0 <= i < |entries|
      ensures entries[i].Key().Canonical() in Contents(files)
      ensures Contents(files)[entries[i].Key().Canonical()] == entries[i]
    {
      ContentsAt(files, entries[i].Key());
    }
    forall i, j | 0 <= i < j < |entries| ensures entries[i].Key().Canonical() != entries[j].Key().Canonical() {
      FileNamesCollide(entries[i].Key(), entries[j].Key());
      NotBelowItself(FileName(entries[i].Key()));
    }
  }

  class PendingDeliveryStore {
    var files: Directory

    ghost predicate Valid()
      reads this
    {
      Sound(files)
    }

    ghost function Entries(): map<EntryKey, StoredEntry>
      requires Valid()
      reads this
    {
      Contents(files)
    }

    constructor ()
      ensures Valid() && Entries() == map[]
    {
      files := map[];
    }

    method Upsert(e: StoredEntry)
      requires Valid()
      modifies this
      ensures Valid() && Entries() == old(Entries())[e.Key().Canonical() := e]
    {
      ghost var before := files;
      var path := FileName(e.Key());
      var temp := TempName(e.Key());
      files := files[temp := Torn];
      files := files[temp := Whole(e)];
      files := (files - {temp})[path := Whole(e)];
      assert files == WriteSteps(before, e)[3];
      WriteIsAtomic(before, e, 3);
    }

    method Delete(taskId: string, kind: DeliveryKind)
      requires Valid()
      modifies this
      ensures Valid() && Entries() == old(Entries()) - {EntryKey(taskId, kind).Canonical()}
    {
      var path := FileName(EntryKey(taskId, kind));
      RemovedContents(files, EntryKey(taskId, kind));
      if path in files {
        files := files - {path};
      } else {
        assert files - {path} == files;
      }
    }

    method GetEntry(taskId: string, kind: DeliveryKind) returns (e: Option<StoredEntry>)
      requires Valid()
      ensures var k := EntryKey(taskId, kind).Canonical(); e == if k in Entries() then Some(Entries()[k]) else None
    {
      var path := FileName(EntryKey(taskId, kind));
      ContentsAt(files, EntryKey(taskId, kind));
      if path !in files {
        return None;
      }
      NameShapes(EntryKey(taskId, kind));
      return Some(files[path].entry);
    }

    /** Every entry, once, in the order of the file names. */
    method ListEntries() returns (entries: seq<StoredEntry>)
      requires Valid()
      ensures forall k :: k in Entries() ==> Entries()[k] in entries
      ensures forall i :: 0 <= i < |entries| ==>
        entries[i].Key().Canonical() in Entries() && Entries()[entries[i].Key().Canonical()] == entries[i]
      ensures forall i, j :: 0 <= i < j < |entries| ==>
        entries[i].Key().Canonical() != entries[j].Key().Canonical()
        && Below(FileName(entries[i].Key()), FileName(entries[j].Key()))
    {
      var paths := EntryNames(files);
      entries := [];
      ghost var done: set<string> := {};
      while paths != {}
        invariant done !! paths && done + paths == EntryNames(files)
        invariant forall m, n :: m in done && n in paths ==> Below(m, n)
        invariant Listed(files, done, entries)
        decreases paths
      {
        ghost var least := LeastExists(paths);
        var n :| n in paths && forall m :: m in paths ==> m == n || Below(n, m);
        ListedOneMore(files, done, entries, n);
        entries := entries + [files[n].entry];
        paths := paths - {n};
        done := done + {n};
      }
      assert done == EntryNames(files);
      ListedAll(files, entries);
    }
  }

  // ----- The ledger's file names -----

  function LedgerStem(taskId: string, messageId: string): string { Sanitize(taskId) + "__" + Sanitize(messageId) }

  function LedgerName(taskId: string, messageId: string): string { LedgerStem(taskId, messageId) + ".json" }

  /** Two tasks whose ledger files never coincide, whatever their messages are called. */
  ghost predicate LedgerSeparates(t: string, u: string) {
    forall m, n :: SafeId(m) && SafeId(n) ==> LedgerName(t, m) != LedgerName(u, n)
  }

  lemma LedgerExtends(t: string, u: string)
    requires SafeId(t) && SafeId(u) && t + "__" <= u + "__"
    ensures !LedgerSeparates(t, u)
  {
    var m := (u + "__")[|t + "__"|..];
    assert u + "__" == t + "__" + m;
    forall i | 0 <= i < |m| ensures SafeChar(m[i]) {
      assert m[i] == (u + "__")[|t + "__"| + i];
    }
    SanitizeSafe(t);
    SanitizeSafe(u);
    SanitizeSafe(m);
    SanitizeSafe("");
    assert LedgerName(t, m) == LedgerName(u, "");
  }

  /** Ledger names are not injective over safe ids: exactly the tasks where one id followed by the separator
      starts the other can share a ledger file, and with it a dead-letter record. */
  lemma LedgerCollidesExactly(t: string, u: string)
    requires SafeId(t) && SafeId(u)
    ensures LedgerSeparates(t, u) <==> !(t + "__" <= u + "__") && !(u + "__" <= t + "__")
  {
    if t + "__" <= u + "__" {
      LedgerExtends(t, u);
    } else if u + "__" <= t + "__" {
      LedgerExtends(u, t);
      var m, n :| SafeId(m) && SafeId(n) && LedgerName(u, m) == LedgerName(t, n);
      assert LedgerName(t, n) == LedgerName(u, m);
    } else {
      SanitizeSafe(t);
      SanitizeSafe(u);
      forall m, n | SafeId(m) && SafeId(n) ensures LedgerName(t, m) != LedgerName(u, n) {
        var rest, rest' := Sanitize(m) + ".json", Sanitize(n) + ".json";
        assert LedgerName(t, m) == (t + "__") + rest && LedgerName(u, n) == (u + "__") + rest';
        PrefixesCompare(t + "__", rest, u + "__", rest');
      }
    }
  }

  lemma PrefixesCompare(a: string, b: string, c: string, d: string)
    ensures a + b == c + d ==> a <= c || c <= a
  {
    if a + b == c + d {
      if |a| <= |c| {
        assert a == (a + b)[..|a|] && c[..|a|] == (c + d)[..|a|];
      } else {
        assert c == (c + d)[..|c|] && a[..|c|] == (a + b)[..|c|];
      }
    }
  }

  /** Among task ids of one length, such as generated ones, every message has a ledger file of its own. */
  lemma LedgerNamesApart(t: string, m: string, u: string, n: string)
    requires SafeId(t) && SafeId(m) && SafeId(u) && SafeId(n) && |t| == |u|
    ensures LedgerName(t, m) == LedgerName(u, n) <==> t == u && m == n
  {
    SanitizeSafe(t);
    SanitizeSafe(m);
    SanitizeSafe(u);
    SanitizeSafe(n);
    if LedgerName(t, m) == LedgerName(u, n) {
      assert t == LedgerName(t, m)[..|t|] && u == LedgerName(u, n)[..|u|];
      assert LedgerName(t, m) == (t + "__") + (m + ".json") && LedgerName(u, n) == (t + "__") + (n + ".json");
      PrefixCancels(t + "__", m + ".json", n + ".json");
      SuffixCancels(m, n, ".json");
    }
  }

  /** Two different messages of different tasks with one ledger file. */
  lemma LedgerCollision()
    ensures LedgerName("a__b", "c") == LedgerName("a", "b__c")
  {
    assert SafeId("a__b") && SafeId("c") && SafeId("a") && SafeId("b__c");
    SanitizeSafe("a__b");
    SanitizeSafe("c");
    SanitizeSafe("a");
    SanitizeSafe("b__c");
  }

  // ----- The ledger -----

  datatype MessageKey = MessageKey(taskId: string, messageId: string)
  {
    function Name(): string { LedgerName(taskId, messageId) }

    function Temp(): string { LedgerStem(taskId, messageId) + ".tmp" }

    predicate Safe() { SafeId(taskId) && SafeId(messageId) }
  }

  type Ledger = map<string, File<MessageKey>>

  /** The directory holds a whole record under the name of each recorded message, and no other record. */
  ghost predicate Records(files: Ledger, recorded: set<MessageKey>) {
    && (forall k :: k in recorded ==> k.Name() in files)
    && (forall n :: n in files && IsEntryName(n) ==>
          files[n].Whole? && files[n].entry in recorded && files[n].entry.Name() == n)
  }

  /** The directory after each step of recording `k`. */
  function RecordSteps(files: Ledger, k: MessageKey): seq<Ledger> {
    [files,
     files[k.Temp() := Torn],
     files[k.Temp() := Whole(k)],
     (files - {k.Temp()})[k.Name() := Whole(k)]]
  }

  lemma LedgerShapes(k: MessageKey)
    ensures IsEntryName(k.Name()) && !IsEntryName(k.Temp())
  {
    assert k.Name()[|k.Name()| - 5..] == ".json";
    assert k.Temp()[|k.Temp()| - 1] == 'p';
  }

  /** A crash while a message is being recorded leaves it recorded or not, and every other record in place. */
  lemma RecordIsAtomic(files: Ledger, recorded: set<MessageKey>, k: MessageKey, i: nat)
    requires Records(files, recorded) && i < 4
    ensures Records(RecordSteps(files, k)[i], if i < 3 then recorded else recorded + {k})
  {
    LedgerShapes(k);
    var files' := RecordSteps(files, k)[i];
    forall l | l in recorded ensures l.Name() in files' {
      LedgerShapes(l);
    }
  }

  /** Messages whose ledger files cannot coincide: safe ids, and task ids of one length. */
  ghost predicate Apart(keys: set<MessageKey>) {
    forall k, l :: k in keys && l in keys ==> k.Safe() && |k.taskId| == |l.taskId|
  }

  class TerminalMessageStore {
    var files: Ledger
    /** The messages recorded so far. */
    ghost var recorded: set<MessageKey>

    ghost predicate Valid()
      reads this
    {
      Records(files, recorded)
    }

    constructor ()
      ensures Valid() && recorded == {}
    {
      files := map[];
      recorded := {};
    }

    /** A message counts as recorded when one with the same file name was; among messages that are apart, exactly
        when it was recorded itself. */
    method Contains(taskId: string, messageId: string) returns (found: bool)
      requires Valid()
      ensures found <==> exists k :: k in recorded && k.Name() == LedgerName(taskId, messageId)
      ensures Apart(recorded + {MessageKey(taskId, messageId)}) ==>
        (found <==> MessageKey(taskId, messageId) in recorded)
    {
      var key := MessageKey(taskId, messageId);
      found := key.Name() in files;
      LedgerShapes(key);
      if Apart(recorded + {key}) {
        forall k | k in recorded && k.Name() == key.Name() ensures k == key {
          assert k.Safe() && key.Safe() && |k.taskId| == |key.taskId|;
          LedgerNamesApart(k.taskId, k.messageId, taskId, messageId);
        }
      }
    }

    /** What was recorded stays recorded. */
    method Record(taskId: string, messageId: string)
      requires Valid()
      modifies this
      ensures Valid() && recorded == old(recorded) + {MessageKey(taskId, messageId)}
    {
      var key := MessageKey(taskId, messageId);
      ghost var before := files;
      files := files[key.Temp() := Torn];
      files := files[key.Temp() := Whole(key)];
      files := (files - {key.Temp()})[key.Name() := Whole(key)];
      assert files == RecordSteps(before, key)[3];
      RecordIsAtomic(before, recorded, key, 3);
      recorded := recorded + {key};
    }
  }
}
