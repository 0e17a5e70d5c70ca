/**
  From day files to table rows: the line parser (`parse_transaction`), the
  file expander (`process_transaction_file`) and the dataset builder (`main`).
  The second script repeats all three with other names (`parsing` for the
  parser) and the same bodies, so they are modelled once, here.
 */
module Pipeline {
  import opened Outcomes
  import opened Text
  import opened Numbers

  /** What the line parser returns: staff id, time, the raw product tokens, amount. */
  datatype Transaction = Transaction(staffId: int, time: DateTime, products: seq<string>, amount: real)

  /**
    One row of the table: a transaction seen through one of its products. The
    date is the file's label; the amount is the whole transaction's, repeated
    on every row the transaction yields.
   */
  datatype Row = Row(date: string, staffId: int, time: DateTime, productId: string, quantity: int, amount: real)

  /** A directory entry: its name and the lines of the file. */
  datatype FileEntry = FileEntry(name: string, lines: seq<string>)

  /** Evaluate `a`, then `b`, and concatenate: the first failure is the one raised. */
  function Chain<T>(a: Result<seq<T>>, b: Result<seq<T>>): Result<seq<T>>
  {
    match a
    case Failure(e) => Failure(e)
    case Success(x) =>
      match b
      case Failure(e) => Failure(e)
      case Success(y) => Success(x + y)
  }

  // ---------------------------------------------------------------- line parser

  /** `line.strip().split(",")`. */
  function Fields(line: string): seq<string>
  {
    Split(Strip(line), ',')
  }

  /** `field[1:-1]`: one character off each end, and "" when fewer than two are there. */
  function Unbracket(field: string): string
  {
    if |field| >= 2 then field[1..|field| - 1] else []
  }

  /**
    `parse_transaction(line)`: a line is accepted exactly when it has four
    comma fields whose first converts with `int`, second with `fromisoformat`
    and fourth with `float`; every other line gives None, never an exception.
    The products are the pieces of the third field, brackets removed, split on
    `|`: at least one, none containing `|`, and joined with `|` they give the
    unbracketed field back. Product tokens are not looked at here.
   */
  function ParseTransaction(line: string): (r: Option<Transaction>)
    ensures var f := Fields(line);
      r.Some? <==> |f| == 4 && ParseInt(f[0]).Some? && ParseIsoDateTime(f[1]).Some? && ParseFloat(f[3]).Some?
    ensures r.Some? ==>
      var f, t := Fields(line), r.value;
      && t.staffId == ParseInt(f[0]).value
      && t.time == ParseIsoDateTime(f[1]).value
      && t.amount == ParseFloat(f[3]).value
      && |t.products| >= 1
      && (forall i :: 0 <= i < |t.products| ==> '|' !in t.products[i])
      && Join(t.products, '|') == Unbracket(f[2])
  {
    var parts := Fields(line);
    if |parts| != 4 then None
    else
      match ParseInt(parts[0])
      case None => None
      case Some(staff) =>
        match ParseIsoDateTime(parts[1])
        case None => None
        case Some(time) =>
          var products := Split(Unbracket(parts[2]), '|');
          SplitSpec(Unbracket(parts[2]), '|');
          match ParseFloat(parts[3])
          case None => None
          case Some(amount) => Some(Transaction(staff, time, products, amount))
  }

  // ---------------------------------------------------------------- file expander

  /** `file_name.split(".")[0]`: the row label, the name up to its first dot. */
  function DateLabel(name: string): (d: string)
    ensures '.' !in d
    ensures |d| <= |name| && d == name[..|d|]
    ensures |d| == |name| || name[|d|] == '.'
  {
    var parts := Split(name, '.');
    SplitSpec(name, '.');
    if |parts| > 1 then
      assert Join(parts, '.') == parts[0] + ['.'] + Join(parts[1..], '.');
      parts[0]
    else
      parts[0]
  }

  /** A token that `product_id, quantity = token.split(":")` and `int(quantity)` accept. */
  predicate WellFormedToken(token: string)
  {
    var parts := Split(token, ':');
    |parts| == 2 && ParseInt(parts[1]).Some?
  }

  /** The errors a product token can raise. */
  predicate TokenError(e: Error)
  {
    e.MalformedProductToken? || e.BadQuantity?
  }

  /**
    The row for one product token: the token must split on `:` into exactly an
    id and a quantity, and the quantity must convert with `int`; otherwise the
    error escapes.
   */
  function ProductRow(date: string, t: Transaction, token: string): (r: Result<Row>)
    ensures r.Success? <==> WellFormedToken(token)
    ensures r.Failure? ==> TokenError(r.error)
    ensures r.Success? ==>
      var parts := Split(token, ':');
      && r.value == Row(date, t.staffId, t.time, parts[0], ParseInt(parts[1]).value, t.amount)
      && token == r.value.productId + [':'] + parts[1]
  {
    var parts := Split(token, ':');
    if |parts| != 2 then Failure(MalformedProductToken(token))
    else
      SplitSpec(token, ':');
      assert Join(parts, ':') == parts[0] + [':'] + parts[1];
      match ParseInt(parts[1])
      case None => Failure(BadQuantity(token))
      case Some(q) => Success(Row(date, t.staffId, t.time, parts[0], q, t.amount))
  }

  /** The token `id:q` written for a product id without `:` reads back as that id and quantity. */
  lemma {:induction false} TokenRoundTrip(date: string, t: Transaction, id: string, q: int)
    requires ':' !in id
    ensures ProductRow(date, t, id + [':'] + ShowInt(q)) == Success(Row(date, t.staffId, t.time, id, q, t.amount))
  {
    var qs := ShowInt(q);
    assert ':' !in qs by {
      ShowIntChars(q);
    }
    assert Split(id + [':'] + qs, ':') == [id, qs] by {
      SplitPiece(id, ':', qs);
      SplitWithout(qs, ':');
    }
    assert ParseInt(qs) == Some(q) by {
      ParseShowInt(q);
    }
  }

  // ---------------------------------------------------------------- loops that raise

  /** A result holding one value, as a one-element list. */
  function Single<X>(r: Result<X>): Result<seq<X>>
  {
    match r
    case Failure(e) => Failure(e)
    case Success(x) => Success([x])
  }

  /**
    A loop that computes a list for each element in turn and appends it to its
    output, and stops with the error of the first computation that raises.
   */
  function Collect<A, T>(xs: seq<A>, step: A -> Result<seq<T>>): Result<seq<T>>
  {
    if xs == [] then Success([])
    else Chain(Collect(xs[..|xs| - 1], step), step(xs[|xs| - 1]))
  }

  lemma ChainAssociative<T>(a: Result<seq<T>>, b: Result<seq<T>>, c: Result<seq<T>>)
    ensures Chain(Chain(a, b), c) == Chain(a, Chain(b, c))
  {
    if a.Success? && b.Success? && c.Success? {
      assert a.value + b.value + c.value == a.value + (b.value + c.value);
    }
  }

  /** Running the loop over two runs of elements one after the other is running it over both. */
  lemma {:induction false} CollectAppend<A, T>(xs: seq<A>, ys: seq<A>, step: A -> Result<seq<T>>)
    ensures Collect(xs + ys, step) == Chain(Collect(xs, step), Collect(ys, step))
  {
    if ys == [] {
      assert xs + ys == xs;
      if Collect(xs, step).Success? {
        assert Collect(xs, step).value + [] == Collect(xs, step).value;
      }
    } else {
      var init := ys[..|ys| - 1];
      assert (xs + ys)[..|xs + ys| - 1] == xs + init;
      assert (xs + ys)[|xs + ys| - 1] == ys[|ys| - 1];
      CollectAppend(xs, init, step);
      ChainAssociative(Collect(xs, step), Collect(init, step), step(ys[|ys| - 1]));
    }
  }

  /**
    The first element whose computation raises decides the loop: once every
    element before it has gone through, the loop raises that element's error,
    whatever comes after.
   */
  lemma {:induction false} CollectFirstFailure<A, T>(xs: seq<A>, step: A -> Result<seq<T>>, i: nat)
    requires i < |xs|
    requires Collect(xs[..i], step).Success? && step(xs[i]).Failure?
    ensures Collect(xs, step) == step(xs[i])
  {
    assert xs[..i + 1][..i] == xs[..i];
    assert xs == xs[..i + 1] + xs[i + 1..];
    CollectAppend(xs[..i + 1], xs[i + 1..], step);
  }

  /** One more iteration of the loop. */
  lemma {:induction false} CollectExtend<A, T>(xs: seq<A>, step: A -> Result<seq<T>>, i: nat)
    requires i < |xs|
    ensures Collect(xs[..i + 1], step) == Chain(Collect(xs[..i], step), step(xs[i]))
  {
    assert xs[..i + 1][..i] == xs[..i];
  }

  /** The loop goes through exactly when every element's computation does. */
  lemma {:induction false} CollectSucceeds<A, T>(xs: seq<A>, step: A -> Result<seq<T>>)
    ensures Collect(xs, step).Success? <==> forall i :: 0 <= i < |xs| ==> step(xs[i]).Success?
  {
    if xs != [] {
      var init := xs[..|xs| - 1];
      CollectSucceeds(init, step);
      assert forall i :: 0 <= i < |init| ==> init[i] == xs[i];
    }
  }

  /** When the loop raises, it raises the error of one of the elements. */
  lemma {:induction false} CollectFails<A, T>(xs: seq<A>, step: A -> Result<seq<T>>)
    ensures Collect(xs, step).Failure? ==>
      exists i :: 0 <= i < |xs| && step(xs[i]) == Failure(Collect(xs, step).error)
  {
    if xs != [] {
      var init := xs[..|xs| - 1];
      CollectFails(init, step);
      if Collect(init, step).Failure? {
        var i :| 0 <= i < |init| && step(init[i]) == Failure(Collect(init, step).error);
        assert init[i] == xs[i];
      }
    }
  }

  /** When every computation yields exactly one value, the loop yields one value per element, in order. */
  lemma {:induction false} CollectSingles<A, T>(xs: seq<A>, step: A -> Result<seq<T>>)
    requires forall i :: 0 <= i < |xs| && step(xs[i]).Success? ==> |step(xs[i]).value| == 1
    ensures Collect(xs, step).Success? ==>
      && |Collect(xs, step).value| == |xs|
      && forall i :: 0 <= i < |xs| ==> step(xs[i]) == Success([Collect(xs, step).value[i]])
  {
    if xs != [] {
      var init := xs[..|xs| - 1];
      assert forall i :: 0 <= i < |init| ==> init[i] == xs[i];
      CollectSingles(init, step);
      if Collect(xs, step).Success? {
        var v := Collect(xs, step).value;
        var last := step(xs[|xs| - 1]).value;
        assert v == Collect(init, step).value + last;
        assert last == [last[0]];
      }
    }
  }

  /** A property that holds of everything every computation yields holds of everything the loop yields. */
  lemma {:induction false} CollectKeeps<A, T>(xs: seq<A>, step: A -> Result<seq<T>>, p: T -> bool)
    requires forall i :: 0 <= i < |xs| && step(xs[i]).Success? ==>
      forall j :: 0 <= j < |step(xs[i]).value| ==> p(step(xs[i]).value[j])
    ensures Collect(xs, step).Success? ==>
      forall j :: 0 <= j < |Collect(xs, step).value| ==> p(Collect(xs, step).value[j])
  {
    if xs != [] {
      var init := xs[..|xs| - 1];
      assert forall i :: 0 <= i < |init| ==> init[i] == xs[i];
      CollectKeeps(init, step, p);
      if Collect(xs, step).Success? {
        var v := Collect(xs, step).value;
        var u := Collect(init, step).value;
        var last := step(xs[|xs| - 1]).value;
        assert v == u + last;
        forall j | 0 <= j < |v|
          ensures p(v[j])
        {
          if j >= |u| {
            assert v[j] == last[j - |u|];
          }
        }
      }
    }
  }

  // ---------------------------------------------------------------- file expander (loops)

  function TokenStep(date: string, t: Transaction): string -> Result<seq<Row>>
  {
    token => Single(ProductRow(date, t, token))
  }

  /** The inner loop over a transaction's product tokens. */
  function ProductRows(date: string, t: Transaction, tokens: seq<string>): Result<seq<Row>>
  {
    Collect(tokens, TokenStep(date, t))
  }

  /**
    The inner loop yields one row per token, in token order, exactly when every
    token is well formed; otherwise it raises a token error.
   */
  lemma {:induction false} ProductRowsSpec(date: string, t: Transaction, tokens: seq<string>)
    ensures var r := ProductRows(date, t, tokens);
      && (r.Success? <==> forall i :: 0 <= i < |tokens| ==> WellFormedToken(tokens[i]))
      && (r.Success? ==>
            && |r.value| == |tokens|
            && forall i :: 0 <= i < |tokens| ==> Success(r.value[i]) == ProductRow(date, t, tokens[i]))
      && (r.Failure? ==> TokenError(r.error))
  {
    var step := TokenStep(date, t);
    forall i | 0 <= i < |tokens|
      ensures step(tokens[i]) == Single(ProductRow(date, t, tokens[i]))
    {
    }
    CollectSucceeds(tokens, step);
    CollectFails(tokens, step);
    CollectSingles(tokens, step);
  }

  /**
    The rows of one transaction differ only in product id and quantity: all
    carry the same label, staff id, time and amount.
   */
  lemma {:induction false} ProductRowsShare(date: string, t: Transaction, tokens: seq<string>)
    ensures ProductRows(date, t, tokens).Success? ==> |ProductRows(date, t, tokens).value| == |tokens|
    ensures ProductRows(date, t, tokens).Success? ==>
      forall i :: 0 <= i < |ProductRows(date, t, tokens).value| ==>
        var row := ProductRows(date, t, tokens).value[i];
        row.date == date && row.staffId == t.staffId && row.time == t.time && row.amount == t.amount
  {
    var step := TokenStep(date, t);
    var same := (row: Row) => row.date == date && row.staffId == t.staffId && row.time == t.time && row.amount == t.amount;
    forall i | 0 <= i < |tokens| && step(tokens[i]).Success?
      ensures forall j :: 0 <= j < |step(tokens[i]).value| ==> same(step(tokens[i]).value[j])
    {
      assert step(tokens[i]) == Single(ProductRow(date, t, tokens[i]));
    }
    CollectKeeps(tokens, step, same);
    forall i | 0 <= i < |tokens| && step(tokens[i]).Success?
      ensures |step(tokens[i]).value| == 1
    {
    }
    CollectSingles(tokens, step);
  }

  /** What one line of a file contributes: nothing when the parser rejects it, else its token rows. */
  function ExpandLine(date: string, line: string): Result<seq<Row>>
  {
    match ParseTransaction(line)
    case None => Success([])
    case Some(t) => ProductRows(date, t, t.products)
  }

  /**
    A line the parser rejects contributes no rows; an accepted line contributes
    the row of each of its product tokens, in order, exactly when every token
    is well formed, and otherwise raises a token error.
   */
  lemma {:induction false} ExpandLineSpec(date: string, line: string)
    ensures ParseTransaction(line).None? ==> ExpandLine(date, line) == Success([])
    ensures ExpandLine(date, line).Failure? ==> TokenError(ExpandLine(date, line).error)
    ensures ParseTransaction(line).Some? ==>
      var t, r := ParseTransaction(line).value, ExpandLine(date, line);
      && (r.Success? <==> forall i :: 0 <= i < |t.products| ==> WellFormedToken(t.products[i]))
      && (r.Success? ==>
            && |r.value| == |t.products|
            && forall i :: 0 <= i < |t.products| ==> Success(r.value[i]) == ProductRow(date, t, t.products[i]))
  {
    match ParseTransaction(line)
    case None =>
    case Some(t) => ProductRowsSpec(date, t, t.products);
  }

  /** Every row a line contributes carries the file's label; a line raises only token errors. */
  lemma {:induction false} ExpandLineLabels(date: string, line: string)
    ensures ExpandLine(date, line).Failure? ==> TokenError(ExpandLine(date, line).error)
    ensures ExpandLine(date, line).Success? ==>
      forall i :: 0 <= i < |ExpandLine(date, line).value| ==> ExpandLine(date, line).value[i].date == date
  {
    match ParseTransaction(line)
    case None =>
    case Some(t) =>
      ProductRowsSpec(date, t, t.products);
      if ProductRows(date, t, t.products).Success? {
        var v := ProductRows(date, t, t.products).value;
        forall i | 0 <= i < |v|
          ensures v[i].date == date
        {
          assert Success(v[i]) == ProductRow(date, t, t.products[i]);
        }
      }
  }

  function LineStep(date: string): string -> Result<seq<Row>>
  {
    line => ExpandLine(date, line)
  }

  /** The outer loop over the lines of a file. */
  function ExpandLines(date: string, lines: seq<string>): Result<seq<Row>>
  {
    Collect(lines, LineStep(date))
  }

  /**
    The lines of a file go through exactly when every line does; then every
    row carries the file's label. Otherwise a token error escapes.
   */
  lemma {:induction false} ExpandLinesSpec(date: string, lines: seq<string>)
    ensures var r := ExpandLines(date, lines);
      && (r.Success? <==> forall k :: 0 <= k < |lines| ==> ExpandLine(date, lines[k]).Success?)
      && (r.Success? ==> forall i :: 0 <= i < |r.value| ==> r.value[i].date == date)
      && (r.Failure? ==> TokenError(r.error))
  {
    var step := LineStep(date);
    forall k | 0 <= k < |lines|
      ensures step(lines[k]) == ExpandLine(date, lines[k])
    {
    }
    forall k | 0 <= k < |lines|
      ensures ExpandLine(date, lines[k]).Failure? ==> TokenError(ExpandLine(date, lines[k]).error)
      ensures ExpandLine(date, lines[k]).Success? ==>
        forall i :: 0 <= i < |ExpandLine(date, lines[k]).value| ==> ExpandLine(date, lines[k]).value[i].date == date
    {
      ExpandLineLabels(date, lines[k]);
    }
    CollectSucceeds(lines, step);
    CollectFails(lines, step);
    CollectKeeps(lines, step, (row: Row) => row.date == date);
  }

  /** What `process_transaction_file` computes for a file. */
  function ProcessFile(file: FileEntry): Result<seq<Row>>
  {
    ExpandLines(DateLabel(file.name), file.lines)
  }

  /**
    A line the parser rejects contributes no rows and leaves the rows of all
    other lines of the file as they were.
   */
  lemma {:induction false} RejectedLineIsSkipped(date: string, before: seq<string>, line: string, after: seq<string>)
    requires ParseTransaction(line) == None
    ensures ExpandLines(date, before + [line] + after) == ExpandLines(date, before + after)
  {
    CollectAppend(before + [line], after, LineStep(date));
    CollectAppend(before, [line], LineStep(date));
    CollectAppend(before, after, LineStep(date));
    assert ExpandLines(date, [line]) == Success([]) by {
      assert [line][..0] == [];
    }
    if ExpandLines(date, before).Success? {
      assert ExpandLines(date, before).value + [] == ExpandLines(date, before).value;
    }
  }

  /** Every row of a file is labelled with the file name up to its first dot. */
  lemma {:induction false} FileRowsAreLabelled(file: FileEntry)
    requires ProcessFile(file).Success?
    ensures forall row :: row in ProcessFile(file).value ==>
      && row.date == DateLabel(file.name)
      && '.' !in row.date
      && file.name[..|row.date|] == row.date
  {
    ExpandLinesSpec(DateLabel(file.name), file.lines);
  }

  /**
    The inner loop of `process_transaction_file`: a row for each product
    token of an accepted transaction, appended in order; a token that does not
    unpack into id and quantity, or whose quantity `int` rejects, raises.
   */
  method TransactionRows(date: string, t: Transaction) returns (r: Result<seq<Row>>)
    ensures r == ProductRows(date, t, t.products)
  {
    var products := t.products;
    var rows: seq<Row> := [];
    for j := 0 to |products|
      invariant ProductRows(date, t, products[..j]) == Success(rows)
    {
      CollectExtend(products, TokenStep(date, t), j);
      var parts := Split(products[j], ':');
      if |parts| != 2 {
        r := Failure(MalformedProductToken(products[j]));
        CollectFirstFailure(products, TokenStep(date, t), j);
        return;
      }
      var quantity := ParseInt(parts[1]);
      if quantity.None? {
        r := Failure(BadQuantity(products[j]));
        CollectFirstFailure(products, TokenStep(date, t), j);
        return;
      }
      rows := rows + [Row(date, t.staffId, t.time, parts[0], quantity.value, t.amount)];
    }
    assert products[..|products|] == products;
    r := Success(rows);
  }

  /**
    `process_transaction_file(file_name)`: the lines are parsed one by one,
    rejected lines skipped, and the rows of every accepted line appended; a
    bad token raises out of the loop.
   */
  method ProcessTransactionFile(file: FileEntry) returns (r: Result<seq<Row>>)
    ensures r == ProcessFile(file)
  {
    var date := DateLabel(file.name);
    var lines := file.lines;
    var data: seq<Row> := [];
    for i := 0 to |lines|
      invariant ExpandLines(date, lines[..i]) == Success(data)
    {
      CollectExtend(lines, LineStep(date), i);
      var parsed := ParseTransaction(lines[i]);
      if parsed.Some? {
        var rows := TransactionRows(date, parsed.value);
        if rows.Failure? {
          r := rows;
          CollectFirstFailure(lines, LineStep(date), i);
          return;
        }
        data := data + rows.value;
      } else {
        assert data + [] == data;
      }
    }
    assert lines[..|lines|] == lines;
    r := Success(data);
  }

  // ---------------------------------------------------------------- dataset builder

  predicate IsTxt(name: string)
  {
    EndsWith(name, ".txt")
  }

  /** `[title for title in listing if title.endswith(".txt")]`: the `.txt` entries, in listing order. */
  function TxtFiles(dir: seq<FileEntry>): (r: seq<FileEntry>)
    ensures forall f :: multiset(r)[f] == if IsTxt(f.name) then multiset(dir)[f] else 0
  {
    if dir == [] then []
    else
      var init := dir[..|dir| - 1];
      var last := dir[|dir| - 1];
      assert dir == init + [last];
      TxtFiles(init) + (if IsTxt(last.name) then [last] else [])
  }

  predicate SortedByName(files: seq<FileEntry>)
  {
    forall i, j :: 0 <= i < j < |files| ==> !StrLess(files[j].name, files[i].name)
  }

  function InsertByName(f: FileEntry, files: seq<FileEntry>): (r: seq<FileEntry>)
    requires SortedByName(files)
    ensures SortedByName(r)
    ensures multiset(r) == multiset(files) + multiset{f}
  {
    if files == [] || !StrLess(files[0].name, f.name) then
      InsertFront(f, files);
      [f] + files
    else
      var rest := InsertByName(f, files[1..]);
      InsertBehind(f, files, rest);
      [files[0]] + rest
  }

  /** An entry no later than the first of a sorted run can go in front of it. */
  lemma InsertFront(f: FileEntry, files: seq<FileEntry>)
    requires SortedByName(files)
    requires files == [] || !StrLess(files[0].name, f.name)
    ensures SortedByName([f] + files)
  {
    var r := [f] + files;
    forall i, j | 0 <= i < j < |r|
      ensures !StrLess(r[j].name, r[i].name)
    {
      if i == 0 && j > 1 {
        StrLeTransitive(f.name, files[0].name, files[j - 1].name);
      }
    }
  }

  /** An entry later than the first of a sorted run goes into the rest of it. */
  lemma InsertBehind(f: FileEntry, files: seq<FileEntry>, rest: seq<FileEntry>)
    requires SortedByName(files) && files != [] && StrLess(files[0].name, f.name)
    requires SortedByName(rest) && multiset(rest) == multiset(files[1..]) + multiset{f}
    ensures SortedByName([files[0]] + rest)
    ensures multiset([files[0]] + rest) == multiset(files) + multiset{f}
  {
    assert files == [files[0]] + files[1..];
    forall j | 0 <= j < |rest|
      ensures !StrLess(rest[j].name, files[0].name)
    {
      assert rest[j] in multiset(rest);
      if rest[j] == f {
        StrLessAsymmetric(files[0].name, f.name);
      } else {
        assert rest[j] in files[1..];
      }
    }
  }

  /** `sorted(...)` on the names: ordered by name, and the same entries. */
  function SortByName(files: seq<FileEntry>): (r: seq<FileEntry>)
    ensures SortedByName(r)
    ensures multiset(r) == multiset(files)
  {
    if files == [] then []
    else
      assert files == [files[0]] + files[1..];
      InsertByName(files[0], SortByName(files[1..]))
  }

  /** The `.txt` files of a listing, in the order `main` processes them. */
  function FileList(dir: seq<FileEntry>): (r: seq<FileEntry>)
    ensures SortedByName(r)
    ensures forall f :: f in r <==> f in dir && IsTxt(f.name)
  {
    var r := SortByName(TxtFiles(dir));
    assert forall f :: f in r <==> f in multiset(r);
    r
  }

  function FileStep(): FileEntry -> Result<seq<seq<Row>>>
  {
    file => Single(ProcessFile(file))
  }

  /** The loop over the sorted file list: one frame per file. */
  function ExpandFiles(files: seq<FileEntry>): Result<seq<seq<Row>>>
  {
    Collect(files, FileStep())
  }

  /**
    The file loop yields one frame per file, in order, exactly when every file
    goes through; otherwise a token error escapes.
   */
  lemma {:induction false} ExpandFilesSpec(files: seq<FileEntry>)
    ensures var r := ExpandFiles(files);
      && (r.Success? <==> forall k :: 0 <= k < |files| ==> ProcessFile(files[k]).Success?)
      && (r.Success? ==>
            && |r.value| == |files|
            && forall k :: 0 <= k < |files| ==> Success(r.value[k]) == ProcessFile(files[k]))
      && (r.Failure? ==> TokenError(r.error))
  {
    var step := FileStep();
    forall k | 0 <= k < |files|
      ensures step(files[k]) == Single(ProcessFile(files[k]))
    {
    }
    forall k | 0 <= k < |files|
      ensures ProcessFile(files[k]).Failure? ==> TokenError(ProcessFile(files[k]).error)
    {
      ExpandLinesSpec(DateLabel(files[k].name), files[k].lines);
    }
    CollectSucceeds(files, step);
    CollectFails(files, step);
    CollectSingles(files, step);
  }

  /** `pd.concat(frames, ignore_index=True)` on a non-empty list: the rows in frame order. */
  function Concat(frames: seq<seq<Row>>): (r: seq<Row>)
    ensures forall row :: row in r <==> exists k :: 0 <= k < |frames| && row in frames[k]
  {
    if frames == [] then []
    else
      var init := frames[..|frames| - 1];
      assert forall k :: 0 <= k < |init| ==> init[k] == frames[k];
      Concat(init) + frames[|frames| - 1]
  }

  /** Concatenation keeps frame order: the rows of `a`'s frames come before those of `b`'s. */
  lemma {:induction false} ConcatAppend(a: seq<seq<Row>>, b: seq<seq<Row>>)
    ensures Concat(a + b) == Concat(a) + Concat(b)
    decreases |b|
  {
    if b == [] {
      assert a + b == a;
    } else {
      var init := b[..|b| - 1];
      ConcatAppend(a, init);
      assert (a + b)[..|a + b| - 1] == a + init;
      assert (a + b)[|a + b| - 1] == b[|b| - 1];
    }
  }

  /** What `main(directory)` returns for a directory listing. */
  function Dataset(dir: seq<FileEntry>): Result<seq<Row>>
  {
    match ExpandFiles(FileList(dir))
    case Failure(e) => Failure(e)
    case Success(frames) => if frames == [] then Failure(NoTransactionFiles) else Success(Concat(frames))
  }

  /**
    `main` fails with "no objects to concatenate" exactly when the listing has
    no `.txt` file, and otherwise raises only the product-token error of a file.
   */
  lemma {:induction false} DatasetFailures(dir: seq<FileEntry>)
    ensures Dataset(dir) == Failure(NoTransactionFiles) <==> forall f :: f in dir ==> !IsTxt(f.name)
    ensures Dataset(dir).Failure? && Dataset(dir).error != NoTransactionFiles ==>
      TokenError(Dataset(dir).error)
  {
    var files := FileList(dir);
    ExpandFilesSpec(files);
    if ExpandFiles(files).Success? && ExpandFiles(files).value == [] {
      assert files == [];
    }
    if exists f :: f in dir && IsTxt(f.name) {
      var f :| f in dir && IsTxt(f.name);
      assert f in files;
    }
  }

  /**
    When `main` returns, its rows are the rows of the `.txt` files, each file
    expanded in turn in name order and the results concatenated.
   */
  lemma {:induction false} DatasetRows(dir: seq<FileEntry>)
    ensures Dataset(dir).Success? ==>
      var files := FileList(dir);
      exists frames: seq<seq<Row>> ::
        && |frames| == |files|
        && (forall k :: 0 <= k < |files| ==> ProcessFile(files[k]) == Success(frames[k]))
        && Dataset(dir).value == Concat(frames)
  {
    ExpandFilesSpec(FileList(dir));
  }

  /** Every row `main` returns is labelled with the name, up to its first dot, of a listed `.txt` file. */
  lemma {:induction false} DatasetLabels(dir: seq<FileEntry>)
    ensures Dataset(dir).Success? ==>
      forall row :: row in Dataset(dir).value ==>
        exists f :: f in dir && IsTxt(f.name) && row.date == DateLabel(f.name)
  {
    var files := FileList(dir);
    ExpandFilesSpec(files);
    if Dataset(dir).Success? {
      var frames := ExpandFiles(files).value;
      forall row | row in Concat(frames)
        ensures exists f :: f in dir && IsTxt(f.name) && row.date == DateLabel(f.name)
      {
        var k :| 0 <= k < |frames| && row in frames[k];
        assert ProcessFile(files[k]) == Success(frames[k]);
        FileRowsAreLabelled(files[k]);
        assert files[k] in dir;
      }
    }
  }

  /**
    `main(directory)`: the `.txt` names sorted, each file processed in turn
    and its frame appended, then the frames concatenated.
   */
  method BuildDataset(dir: seq<FileEntry>) returns (r: Result<seq<Row>>)
    ensures r == Dataset(dir)
  {
    var fileList := FileList(dir);
    var dataframes: seq<seq<Row>> := [];
    for i := 0 to |fileList|
      invariant ExpandFiles(fileList[..i]) == Success(dataframes)
    {
      var df := ProcessTransactionFile(fileList[i]);
      if df.Failure? {
        assert ExpandFiles(fileList) == Failure(df.error) by {
          CollectFirstFailure(fileList, FileStep(), i);
        }
        r := Failure(df.error);
        return;
      }
      assert ExpandFiles(fileList[..i + 1]) == Success(dataframes + [df.value]) by {
        CollectExtend(fileList, FileStep(), i);
      }
      dataframes := dataframes + [df.value];
    }
    assert fileList[..|fileList|] == fileList;
    if dataframes == [] {
      r := Failure(NoTransactionFiles);
    } else {
      r := Success(Concat(dataframes));
    }
  }
}
