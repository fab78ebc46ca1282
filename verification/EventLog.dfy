/** The buffered writer of dated files and the loader that reads them back in order of their names. */
module EventLog {
  // ---------- names ----------

  predicate Less(a: string, b: string) {
    b != [] && (a == [] || a[0] < b[0] || (a[0] == b[0] && Less(a[1..], b[1..])))
  }

  predicate Leq(a: string, b: string) { a == b || Less(a, b) }

  lemma {:induction false} LessTransitive(a: string, b: string, c: string)
    requires Less(a, b) && Less(b, c)
    ensures Less(a, c)
  {
    if a != [] && a[0] == b[0] && b[0] == c[0] { LessTransitive(a[1..], b[1..], c[1..]); }
  }

  lemma {:induction false} LessTotal(a: string, b: string)
    ensures a == b || Less(a, b) || Less(b, a)
    ensures !(Less(a, b) && Less(b, a)) && !Less(a, a)
  {
    if a != [] && b != [] {
      LessTotal(a[1..], b[1..]);
      if a[0] == b[0] && a[1..] == b[1..] { assert a == [a[0]] + a[1..] && b == [b[0]] + b[1..]; }
      LessIrreflexive(a);
    } else {
      LessIrreflexive(a);
    }
  }

  lemma {:induction false} LessIrreflexive(a: string)
    ensures !Less(a, a)
  {
    if a != [] { LessIrreflexive(a[1..]); }
  }

  /** Names of the same beginning compare by what follows; of two beginnings of one length, by the beginnings. */
  lemma {:induction false} LessPrefix(a: string, b: string, s: string, t: string)
    requires |a| == |b|
    ensures a == b ==> (Less(a + s, b + t) <==> Less(s, t))
    ensures Less(a, b) ==> Less(a + s, b + t)
  {
    if a == [] {
      assert a + s == s && b + t == t;
    } else {
      assert (a + s)[1..] == a[1..] + s && (b + t)[1..] == b[1..] + t;
      LessPrefix(a[1..], b[1..], s, t);
    }
  }

  // ---------- days and their files ----------

  datatype Day = Day(year: nat, month: nat, day: nat)

  /** Days whose parts have four, two and two digits. */
  predicate DayOk(d: Day) { 1000 <= d.year <= 9999 && 1 <= d.month <= 12 && 1 <= d.day <= 31 }

  predicate NotAfter(d: Day, e: Day) {
    d.year < e.year || (d.year == e.year && (d.month < e.month || (d.month == e.month && d.day <= e.day)))
  }

  function Digit(n: nat): char
    requires n < 10
  {
    '0' + n as char
  }

  function Two(n: nat): string
    requires n < 100
  {
    [Digit(n / 10), Digit(n % 10)]
  }

  function Four(n: nat): string
    requires n < 10000
  {
    Two(n / 100) + Two(n % 100)
  }

  function DirName(d: Day): string
    requires DayOk(d)
  {
    Four(d.year) + ("-" + Two(d.month))
  }

  function FileName(d: Day): string
    requires DayOk(d)
  {
    "events-" + (DirName(d) + ("-" + (Two(d.day) + ".log")))
  }

  lemma TwoAscends(m: nat, n: nat)
    requires m < n < 100
    ensures Less(Two(m), Two(n))
  {
    assert Two(m)[1..] == [Digit(m % 10)] && Two(n)[1..] == [Digit(n % 10)];
  }

  lemma FourAscends(m: nat, n: nat)
    requires m < n < 10000
    ensures Less(Four(m), Four(n))
  {
    if m / 100 < n / 100 { TwoAscends(m / 100, n / 100); } else { TwoAscends(m % 100, n % 100); }
    LessPrefix(Two(m / 100), Two(n / 100), Two(m % 100), Two(n % 100));
  }

  /** Directories sort like their months. */
  lemma DirsAscend(d: Day, e: Day)
    requires DayOk(d) && DayOk(e) && NotAfter(d, e)
    ensures Leq(DirName(d), DirName(e))
    ensures DirName(d) == DirName(e) ==> d.year == e.year && d.month == e.month
  {
    LessPrefix(Four(d.year), Four(e.year), "-" + Two(d.month), "-" + Two(e.month));
    LessPrefix("-", "-", Two(d.month), Two(e.month));
    LessIrreflexive(DirName(d));
    if d.year < e.year { FourAscends(d.year, e.year); }
    else if d.month < e.month { TwoAscends(d.month, e.month); }
  }

  /** Files of one directory sort like their days. */
  lemma FilesAscend(d: Day, e: Day)
    requires DayOk(d) && DayOk(e) && NotAfter(d, e) && d.year == e.year && d.month == e.month
    ensures Leq(FileName(d), FileName(e))
  {
    if d.day < e.day {
      TwoAscends(d.day, e.day);
      LessPrefix(Two(d.day), Two(e.day), ".log", ".log");
      LessPrefix("-", "-", Two(d.day) + ".log", Two(e.day) + ".log");
      LessPrefix(DirName(d), DirName(e), "-" + (Two(d.day) + ".log"), "-" + (Two(e.day) + ".log"));
      LessPrefix("events-", "events-",
                 DirName(d) + ("-" + (Two(d.day) + ".log")), DirName(e) + ("-" + (Two(e.day) + ".log")));
    }
  }

  // ---------- reading in order of names ----------

  predicate IsLast(names: set<string>, last: string) { last in names && forall x :: x in names ==> Leq(x, last) }

  lemma {:induction false} LastExists(names: set<string>)
    requires names != {}
    ensures exists last :: IsLast(names, last)
    decreases |names|
  {
    var x :| x in names;
    if names == {x} {
      assert IsLast(names, x);
    } else {
      LastExists(names - {x});
      var y :| IsLast(names - {x}, y);
      LessTotal(x, y);
      if Less(y, x) {
        forall z | z in names ensures Leq(z, x) {
          if z != x {
            assert z in names - {x};
            if z != y { LessTransitive(z, y, x); }
          }
        }
        assert IsLast(names, x);
      } else {
        assert forall z :: z in names && z != x ==> z in names - {x};
        assert IsLast(names, y);
      }
    }
  }

  ghost function LastOf(names: set<string>): (last: string)
    requires names != {}
    ensures IsLast(names, last)
  {
    LastExists(names);
    var last :| IsLast(names, last);
    last
  }

  /** The contents under all names, put together in ascending order of the names. */
  ghost function InOrder<E>(m: map<string, seq<E>>): seq<E>
    decreases |m|
  {
    if m == map[] then []
    else
      var last := LastOf(m.Keys);
      InOrder(m - {last}) + m[last]
  }

  lemma InOrderLast<E>(m: map<string, seq<E>>, last: string)
    requires IsLast(m.Keys, last)
    ensures InOrder(m) == InOrder(m - {last}) + m[last]
  {
    assert last in m && m != map[];
    LessTotal(LastOf(m.Keys), last);
  }

  /** Adding to the last file, new or not, adds at the end. */
  lemma AppendLast<E>(m: map<string, seq<E>>, last: string, es: seq<E>)
    requires forall x :: x in m ==> Leq(x, last)
    ensures InOrder(m[last := (if last in m then m[last] else []) + es]) == InOrder(m) + es
  {
    hide InOrder;
    var m' := m[last := (if last in m then m[last] else []) + es];
    InOrderLast(m', last);
    if last in m {
      InOrderLast(m, last);
      assert m' - {last} == m - {last};
    } else {
      assert m' - {last} == m;
    }
  }

  // ---------- the store ----------

  type Files<!E> = map<string, map<string, seq<E>>>

  function Folder<E>(files: Files<E>, dir: string): map<string, seq<E>> { if dir in files then files[dir] else map[] }

  /** What the loader reads: directory by directory, file by file. */
  ghost function Loaded<E>(files: Files<E>): seq<E> { InOrder(map dir | dir in files :: InOrder(files[dir])) }

  /** A folder with lines added to one of its files, new or not. */
  function Extend<E>(files: Files<E>, dir: string, name: string, es: seq<E>): Files<E> {
    var folder := Folder(files, dir);
    files[dir := folder[name := (if name in folder then folder[name] else []) + es]]
  }

  function Append<E>(files: Files<E>, d: Day, es: seq<E>): Files<E>
    requires DayOk(d)
  {
    Extend(files, DirName(d), FileName(d), es)
  }

  /** Every file is named by a day no later than this. */
  ghost predicate WrittenBy<E>(files: Files<E>, now: Day) {
    forall dir, name :: dir in files && name in files[dir] ==>
      exists d :: DayOk(d) && NotAfter(d, now) && dir == DirName(d) && name == FileName(d)
  }

  ghost predicate NoEmptyFolder<E>(files: Files<E>) { forall dir :: dir in files ==> files[dir] != map[] }

  lemma {:induction false} LaterDayIsLast<E>(files: Files<E>, d: Day)
    requires DayOk(d) && WrittenBy(files, d) && NoEmptyFolder(files)
    ensures forall dir :: dir in files ==> Leq(dir, DirName(d))
    ensures forall name :: name in Folder(files, DirName(d)) ==> Leq(name, FileName(d))
  {
    forall dir | dir in files ensures Leq(dir, DirName(d)) {
      var name :| name in files[dir];
      var e :| DayOk(e) && NotAfter(e, d) && dir == DirName(e) && name == FileName(e);
      DirsAscend(e, d);
    }
    forall name | name in Folder(files, DirName(d)) ensures Leq(name, FileName(d)) {
      var e :| DayOk(e) && NotAfter(e, d) && DirName(d) == DirName(e) && name == FileName(e);
      DirsAscend(e, d);
      FilesAscend(e, d);
    }
  }

  /** Appending to the file of a day no earlier than any file so far appends to what is loaded. */
  lemma {:induction false} AppendLoads<E>(files: Files<E>, d: Day, es: seq<E>)
    requires DayOk(d) && WrittenBy(files, d) && NoEmptyFolder(files)
    ensures Loaded(Append(files, d, es)) == Loaded(files) + es
    ensures WrittenBy(Append(files, d, es), d) && NoEmptyFolder(Append(files, d, es))
  {
    hide *;
    LaterDayIsLast(files, d);
    LoadsAppended(files, DirName(d), FileName(d), es);
    AppendUnfolds(files, d, es);
    AppendKeeps(files, d, es);
  }

  lemma AppendUnfolds<E>(files: Files<E>, d: Day, es: seq<E>)
    requires DayOk(d)
    ensures Append(files, d, es) == Extend(files, DirName(d), FileName(d), es)
  {
  }

  lemma LoadsAppended<E>(files: Files<E>, dir: string, name: string, es: seq<E>)
    requires forall x :: x in files ==> Leq(x, dir)
    requires forall x :: x in Folder(files, dir) ==> Leq(x, name)
    ensures Loaded(Extend(files, dir, name, es)) == Loaded(files) + es
  {
    hide Leq, InOrder;
    var files', folder := Extend(files, dir, name, es), Folder(files, dir);
    AppendLast(folder, name, es);
    var contents := map x | x in files :: InOrder(files[x]);
    EmptyFolderIsEmpty<E>();
    AppendLast(contents, dir, es);
    assert (map x | x in files' :: InOrder(files'[x]))
      == contents[dir := (if dir in contents then contents[dir] else []) + es];
  }

  lemma {:induction false} AppendKeeps<E>(files: Files<E>, d: Day, es: seq<E>)
    requires DayOk(d) && WrittenBy(files, d) && NoEmptyFolder(files)
    ensures WrittenBy(Append(files, d, es), d) && NoEmptyFolder(Append(files, d, es))
  {
    hide DirName, FileName;
    assert NotAfter(d, d);
  }

  lemma EmptyFolderIsEmpty<E>()
    ensures InOrder<E>(map[]) == []
  {
  }

  // ---------- runs ----------

  datatype Op<E> = Push(event: E) | Flush(now: Day)

  datatype Store<!E> = Store(files: Files<E>, buffer: seq<E>)

  function Do<E>(s: Store<E>, op: Op<E>): Store<E>
    requires op.Flush? ==> DayOk(op.now)
  {
    match op
    case Push(e) => s.(buffer := s.buffer + [e])
    case Flush(now) => if s.buffer == [] then s else Store(Append(s.files, now, s.buffer), [])
  }

  /** The days of the flushes are representable and do not go back. */
  predicate Clocked<E>(ops: seq<Op<E>>) {
    && (forall i :: 0 <= i < |ops| && ops[i].Flush? ==> DayOk(ops[i].now))
    && (forall i, j :: 0 <= i < j < |ops| && ops[i].Flush? && ops[j].Flush? ==> NotAfter(ops[i].now, ops[j].now))
  }

  function Written<E>(ops: seq<Op<E>>): Store<E>
    requires Clocked(ops)
  {
    if ops == [] then Store(map[], [])
    else Do(Written(ops[..|ops| - 1]), ops[|ops| - 1])
  }

  function Pushed<E>(ops: seq<Op<E>>): seq<E> {
    if ops == [] then []
    else Pushed(ops[..|ops| - 1]) + (if ops[|ops| - 1].Push? then [ops[|ops| - 1].event] else [])
  }

  /** No flush of the run was later than this day. */
  predicate FlushedBy<E>(ops: seq<Op<E>>, now: Day) {
    forall i :: 0 <= i < |ops| && ops[i].Flush? ==> NotAfter(ops[i].now, now)
  }

  /** Everything pushed is on disk or in the buffer, in order, and the files are not of the future. */
  ghost predicate NothingLost<E(!new)>(ops: seq<Op<E>>, s: Store<E>) {
    && Loaded(s.files) + s.buffer == Pushed(ops) && NoEmptyFolder(s.files)
    && forall now :: FlushedBy(ops, now) ==> WrittenBy(s.files, now)
  }

  /** Whatever pushes and flushes are interleaved, what is loaded plus what is buffered is what was pushed, in order. */
  lemma {:induction false} RoundTrip<E(!new)>(ops: seq<Op<E>>)
    requires Clocked(ops)
    ensures NothingLost(ops, Written(ops))
  {
    if ops == [] {
      NothingLoaded<E>();
    } else {
      var init, op := ops[..|ops| - 1], ops[|ops| - 1];
      assert ops == init + [op];
      RoundTrip(init);
      RoundTripStep(init, op);
    }
  }

  lemma NothingLoaded<E>()
    ensures Loaded<E>(map[]) == []
  {
    var none: Files<E> := map[];
    var contents := map dir | dir in none :: InOrder(none[dir]);
    assert contents.Keys == {};
  }

  lemma FlushedByStep<E>(init: seq<Op<E>>, op: Op<E>)
    ensures forall now :: FlushedBy(init + [op], now) ==> FlushedBy(init, now) && (op.Flush? ==> NotAfter(op.now, now))
    ensures Clocked(init + [op]) && op.Flush? ==> DayOk(op.now) && FlushedBy(init, op.now)
  {
    var ops := init + [op];
    assert ops[|init|] == op && forall i :: 0 <= i < |init| ==> ops[i] == init[i];
  }

  lemma RoundTripStep<E(!new)>(init: seq<Op<E>>, op: Op<E>)
    requires Clocked(init + [op]) && Clocked(init) && NothingLost(init, Written(init))
    ensures NothingLost(init + [op], Written(init + [op]))
  {
    hide Loaded, Append, WrittenBy, NoEmptyFolder, Clocked, FlushedBy, NotAfter;
    var ops, s := init + [op], Written(init);
    assert ops[..|ops| - 1] == init;
    FlushedByStep(init, op);
    if op.Flush? && s.buffer != [] {
      AppendLoads(s.files, op.now, s.buffer);
      LaterStillWritten(Append(s.files, op.now, s.buffer), op.now);
    }
  }

  lemma LaterStillWritten<E>(files: Files<E>, d: Day)
    requires WrittenBy(files, d)
    ensures forall e :: NotAfter(d, e) ==> WrittenBy(files, e)
  {
  }

  /** After a final flush the loader returns exactly what was pushed. */
  lemma {:induction false} AllOnDisk<E(!new)>(ops: seq<Op<E>>, now: Day)
    requires Clocked(ops + [Flush(now)])
    ensures Loaded(Written(ops + [Flush(now)]).files) == Pushed(ops)
  {
    var all := ops + [Flush(now)];
    assert all[..|all| - 1] == ops;
    RoundTrip(all);
    assert Pushed(all) == Pushed(ops);
  }

  // ---------- day by day ----------

  /** Different months have different directories, different days different files. */
  lemma NamesApart(d: Day, e: Day)
    requires DayOk(d) && DayOk(e)
    ensures DirName(d) == DirName(e) <==> d.year == e.year && d.month == e.month
    ensures FileName(d) == FileName(e) <==> d == e
  {
    hide *;
    MonthsApart(d, e);
    NameTellsDay(d);
    NameTellsDay(e);
    TwoApart(d.day, e.day);
    if d == e { assert FileName(d) == FileName(e); }
  }

  lemma MonthsApart(d: Day, e: Day)
    requires DayOk(d) && DayOk(e)
    ensures DirName(d) == DirName(e) <==> d.year == e.year && d.month == e.month
    ensures d.day < 100 && e.day < 100
  {
    if NotAfter(d, e) { DirsAscend(d, e); } else { DirsAscend(e, d); }
    hide Four, Two;
  }

  /** The parts of a file name. */
  lemma NameTellsDay(d: Day)
    requires DayOk(d)
    ensures |FileName(d)| == 21 && FileName(d)[7..14] == DirName(d) && d.day < 100 && FileName(d)[15..17] == Two(d.day)
  {
  }

  lemma TwoApart(m: nat, n: nat)
    requires m < 100 && n < 100
    ensures Two(m) == Two(n) <==> m == n
  {
    hide Two, Less;
    LessIrreflexive(Two(m));
    if m < n { TwoAscends(m, n); }
    if n < m { TwoAscends(n, m); }
  }

  /** A day written out: year, month and day with leading zeros. */
  lemma NamesOfADay()
    ensures DirName(Day(2024, 3, 7)) == "2024-03" && FileName(Day(2024, 3, 7)) == "events-2024-03-07.log"
  {
  }

  /** The lines in the file of a day, of which there may be none. */
  function File<E>(files: Files<E>, d: Day): seq<E>
    requires DayOk(d)
  {
    var folder := Folder(files, DirName(d));
    if FileName(d) in folder then folder[FileName(d)] else []
  }

  /** What was pushed since the last flush. */
  function Waiting<E>(ops: seq<Op<E>>): seq<E> {
    if ops == [] then []
    else match ops[|ops| - 1]
      case Push(e) => Waiting(ops[..|ops| - 1]) + [e]
      case Flush(_) => []
  }

  /** What the flushes of a day found waiting. */
  function FlushedOn<E>(ops: seq<Op<E>>, d: Day): seq<E> {
    if ops == [] then []
    else
      var init, op := ops[..|ops| - 1], ops[|ops| - 1];
      FlushedOn(init, d) + if op == Flush(d) then Waiting(init) else []
  }

  /** The file of every day holds what was flushed on it, and there are no other files. */
  ghost predicate Filed<E(!new)>(ops: seq<Op<E>>, s: Store<E>) {
    && s.buffer == Waiting(ops)
    && (forall d :: DayOk(d) ==> File(s.files, d) == FlushedOn(ops, d))
    && (forall dir, name :: dir in s.files && name in s.files[dir] ==>
          exists d :: DayOk(d) && dir == DirName(d) && name == FileName(d) && FlushedOn(ops, d) != [])
  }

  lemma {:induction false} FilesByDay<E(!new)>(ops: seq<Op<E>>)
    requires Clocked(ops)
    ensures Filed(ops, Written(ops))
  {
    if ops != [] {
      var init, op := ops[..|ops| - 1], ops[|ops| - 1];
      assert ops == init + [op];
      ClockedInit(init, op);
      FilesByDay(init);
      FiledStep(init, op, Written(init));
    }
  }

  lemma ClockedInit<E>(init: seq<Op<E>>, op: Op<E>)
    requires Clocked(init + [op])
    ensures Clocked(init) && (op.Flush? ==> DayOk(op.now)) && Written(init + [op]) == Do(Written(init), op)
  {
    var all := init + [op];
    assert all[..|init|] == init && all[|init|] == op;
    assert forall i :: 0 <= i < |init| ==> init[i] == all[i];
  }

  lemma FiledStep<E(!new)>(init: seq<Op<E>>, op: Op<E>, s: Store<E>)
    requires Filed(init, s) && (op.Flush? ==> DayOk(op.now))
    ensures Filed(init + [op], Do(s, op))
  {
    hide DirName, FileName;
    OneMoreOp(init, op);
    hide Waiting, FlushedOn;
    if op.Flush? && s.buffer != [] {
      forall d | DayOk(d) ensures File(Do(s, op).files, d) == FlushedOn(init + [op], d) { NamesApart(d, op.now); }
    }
  }

  lemma OneMoreOp<E(!new)>(init: seq<Op<E>>, op: Op<E>)
    ensures Waiting(init + [op]) == if op.Push? then Waiting(init) + [op.event] else []
    ensures forall d :: FlushedOn(init + [op], d) == FlushedOn(init, d) + if op == Flush(d) then Waiting(init) else []
  {
    assert (init + [op])[..|init|] == init;
  }

  // ---------- the writer ----------

  class EventWriter<E> {
    var buffer: seq<E>
    var files: Files<E>

    constructor ()
      ensures View() == Store(map[], [])
    {
      buffer, files := [], map[];
    }

    function View(): Store<E>
      reads this
    {
      Store(files, buffer)
    }

    /** Only buffers: files are never written while an event is handled. */
    method Push(e: E)
      modifies this`buffer
      ensures View() == Do(old(View()), Op.Push(e))
    {
      buffer := buffer + [e];
    }

    /** Write the buffer, line by line, at the end of the file of the day. */
    method Flush(now: Day) returns (count: nat)
      requires DayOk(now)
      modifies this
      ensures View() == Do(old(View()), Op.Flush(now)) && count == |old(buffer)|
    {
      count := |buffer|;
      if buffer == [] {
        return;
      }
      var lines := buffer;
      buffer := [];
      var dir, name := DirName(now), FileName(now);
      hide DirName, FileName;
      assert lines[..0] == [];
      OpenForAppend(dir, name);
      for i := 0 to |lines|
        invariant buffer == [] && files == Extend(old(files), dir, name, lines[..i])
      {
        ExtendTwice(old(files), dir, name, lines[..i], lines[i]);
        files := files[dir := files[dir][name := files[dir][name] + [lines[i]]]];
        assert lines[..i + 1] == lines[..i] + [lines[i]];
      }
      assert lines[..|lines|] == lines;
    }

    /** The file exists from here on, if it did not before. */
    method OpenForAppend(dir: string, name: string)
      modifies this`files
      ensures files == Extend(old(files), dir, name, [])
    {
      var folder := Folder(files, dir);
      var lines := if name in folder then folder[name] else [];
      assert lines + [] == lines;
      files := files[dir := folder[name := lines]];
    }
  }

  lemma ExtendTwice<E>(files: Files<E>, dir: string, name: string, es: seq<E>, e: E)
    ensures var f := Extend(files, dir, name, es);
      && dir in f && name in f[dir]
      && f[dir := f[dir][name := f[dir][name] + [e]]] == Extend(files, dir, name, es + [e])
  {
    var folder := Folder(files, dir);
    var before := if name in folder then folder[name] else [];
    assert before + es + [e] == before + (es + [e]);
    var f := Extend(files, dir, name, es);
    assert f[dir := f[dir][name := f[dir][name] + [e]]] == Extend(files, dir, name, es + [e]) by {
      assert f[dir][name := before + (es + [e])] == folder[name := before + (es + [e])];
    }
  }

  // ---------- the loader ----------

  predicate Ascending(names: seq<string>) { forall i, j :: 0 <= i < j < |names| ==> Less(names[i], names[j]) }

  /** Names in ascending order. */
  method SortNames(names: set<string>) returns (sorted: seq<string>)
    ensures Ascending(sorted) && forall x :: x in sorted <==> x in names
  {
    sorted := [];
    var rest := names;
    while rest != {}
      invariant rest <= names && Ascending(sorted)
      invariant forall x :: x in sorted <==> x in names && x !in rest
    {
      var x :| x in rest;
      sorted := InsertName(sorted, x);
      rest := rest - {x};
    }
  }

  method InsertName(sorted: seq<string>, x: string) returns (r: seq<string>)
    requires Ascending(sorted) && x !in sorted
    ensures Ascending(r) && forall y :: y in r <==> y in sorted || y == x
  {
    hide Less;
    var k := 0;
    while k < |sorted| && Less(sorted[k], x)
      invariant k <= |sorted| && forall i :: 0 <= i < k ==> Less(sorted[i], x)
    {
      k := k + 1;
    }
    forall i | k <= i < |sorted| ensures Less(x, sorted[i]) {
      LessTotal(x, sorted[k]);
      if i > k { LessTransitive(x, sorted[k], sorted[i]); }
    }
    r := sorted[..k] + [x] + sorted[k..];
    InsertedAt(sorted, k, x);
  }

  lemma InsertedAt(sorted: seq<string>, k: nat, x: string)
    requires Ascending(sorted) && k <= |sorted|
    requires (forall i :: 0 <= i < k ==> Less(sorted[i], x)) && forall i :: k <= i < |sorted| ==> Less(x, sorted[i])
    ensures var r := sorted[..k] + [x] + sorted[k..]; Ascending(r) && forall y :: y in r <==> y in sorted || y == x
  {
    hide Less;
    var r := sorted[..k] + [x] + sorted[k..];
    assert sorted == sorted[..k] + sorted[k..];
    forall i, j | 0 <= i < j < |r| ensures Less(r[i], r[j]) {
      assert i < k ==> r[i] == sorted[i];
      assert j < k ==> r[j] == sorted[j];
      assert i > k ==> r[i] == sorted[i - 1];
      assert j > k ==> r[j] == sorted[j - 1];
    }
  }

  /** A map cut down to the first names of an ascending list. */
  function Upto<E>(m: map<string, seq<E>>, names: seq<string>): map<string, seq<E>> {
    map x | x in m && x in names :: m[x]
  }

  lemma UptoNext<E>(m: map<string, seq<E>>, names: seq<string>, i: nat)
    requires Ascending(names) && i < |names| && names[i] in m
    ensures InOrder(Upto(m, names[..i + 1])) == InOrder(Upto(m, names[..i])) + m[names[i]]
  {
    assert names[..i + 1] == names[..i] + [names[i]];
    var m' := Upto(m, names[..i + 1]);
    forall x | x in m'.Keys ensures Leq(x, names[i]) {}
    InOrderLast(m', names[i]);
    LessIrreflexive(names[i]);
    assert names[i] !in names[..i];
    assert m' - {names[i]} == Upto(m, names[..i]);
  }

  method LoadFolder<E>(folder: map<string, seq<E>>) returns (all: seq<E>)
    ensures all == InOrder(folder)
  {
    hide InOrder;
    var names := SortNames(folder.Keys);
    all := [];
    assert Upto(folder, []) == map[];
    EmptyFolderIsEmpty<E>();
    for i := 0 to |names|
      invariant all == InOrder(Upto(folder, names[..i]))
    {
      UptoNext(folder, names, i);
      all := all + folder[names[i]];
    }
    assert names[..|names|] == names && Upto(folder, names) == folder;
  }

  /** Directories in order of their names, in each the files in order of theirs. */
  method LoadAll<E>(files: Files<E>) returns (all: seq<E>)
    ensures all == Loaded(files)
  {
    hide InOrder;
    var names := SortNames(files.Keys);
    ghost var contents := map dir | dir in files :: InOrder(files[dir]);
    all := [];
    assert Upto(contents, []) == map[];
    EmptyFolderIsEmpty<E>();
    for i := 0 to |names|
      invariant all == InOrder(Upto(contents, names[..i]))
    {
      UptoNext(contents, names, i);
      var read := LoadFolder(files[names[i]]);
      all := all + read;
    }
    assert names[..|names|] == names && Upto(contents, names) == contents;
  }
}
