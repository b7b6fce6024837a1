/** The command dispatch of `repl`: one input line is classified into help,
    add-by-secret, add-by-URI, delete, show or list, and the chosen operation
    runs on the store; an error ends only that command. */
module Repl {
  import opened Wrappers
  import opened Store

  datatype Command =
    | Help
    | AddSecret(secret: string, desc: Option<string>)
    | AddUri(uri: string)
    | Delete(nth: Option<int>)
    | Show(nth: Option<int>)
    | List

  /** JavaScript's split on a single-space pattern: the fields between single
      spaces, empty fields kept. */
  function Split(line: string): (fields: seq<string>)
    ensures |fields| >= 1
    ensures |fields| == 1 <==> ' ' !in line
    ensures forall i :: 0 <= i < |fields| ==> ' ' !in fields[i]
  {
    if |line| == 0 then [""]
    else
      var rest := Split(line[1..]);
      assert ' ' in line <==> line[0] == ' ' || ' ' in line[1..];
      if line[0] == ' ' then [""] + rest
      else [[line[0]] + rest[0]] + rest[1..]
  }

  /** The fields glued back together with single spaces. */
  function Join(fields: seq<string>): string
    requires |fields| >= 1
  {
    if |fields| == 1 then fields[0] else fields[0] + " " + Join(fields[1..])
  }

  lemma {:induction false} JoinAfterSpace(rest: seq<string>)
    requires |rest| >= 1
    ensures Join([""] + rest) == " " + Join(rest)
  {
    assert ([""] + rest)[1..] == rest;
  }

  lemma {:induction false} JoinAfterChar(c: char, rest: seq<string>)
    requires |rest| >= 1
    ensures Join([[c] + rest[0]] + rest[1..]) == [c] + Join(rest)
  {
    var fields := [[c] + rest[0]] + rest[1..];
    if |rest| > 1 {
      assert fields[1..] == rest[1..];
      assert Join(fields) == ([c] + rest[0]) + " " + Join(rest[1..]);
    }
  }

  /** Splitting loses nothing: the fields rejoined give back the line. */
  lemma {:induction false} JoinSplit(line: string)
    ensures Join(Split(line)) == line
    decreases |line|
  {
    if |line| > 0 {
      var rest := Split(line[1..]);
      JoinSplit(line[1..]);
      if line[0] == ' ' {
        JoinAfterSpace(rest);
      } else {
        JoinAfterChar(line[0], rest);
      }
      assert line == [line[0]] + line[1..];
    }
  }

  lemma {:induction false} SplitNoSpace(a: string)
    requires ' ' !in a
    ensures Split(a) == [a]
    decreases |a|
  {
    if |a| > 0 {
      assert ' ' !in a[1..] by {
        forall i | 0 <= i < |a| - 1 ensures a[1..][i] != ' ' { assert a[1..][i] == a[i + 1]; }
      }
      SplitNoSpace(a[1..]);
      assert [a[0]] + a[1..] == a;
    }
  }

  lemma {:induction false} SplitField(a: string, t: string)
    requires ' ' !in a
    ensures Split(a + " " + t) == [a] + Split(t)
    decreases |a|
  {
    if |a| == 0 {
      assert (a + " " + t)[1..] == t;
    } else {
      assert (a + " " + t)[1..] == a[1..] + " " + t;
      SplitField(a[1..], t);
      assert [a[0]] + a[1..] == a;
    }
  }

  /** Fields without spaces survive a join and a split unchanged. */
  lemma {:induction false} SplitJoin(fields: seq<string>)
    requires |fields| >= 1
    requires forall i :: 0 <= i < |fields| ==> ' ' !in fields[i]
    ensures Split(Join(fields)) == fields
    decreases |fields|
  {
    if |fields| == 1 {
      SplitNoSpace(fields[0]);
    } else {
      SplitJoin(fields[1..]);
      SplitField(fields[0], Join(fields[1..]));
      assert fields == [fields[0]] + fields[1..];
    }
  }

  /** JavaScript's `startsWith`. */
  predicate StartsWith(line: string, prefix: string)
  {
    prefix <= line
  }

  predicate IsHelp(line: string)
  {
    line == "?" || line == "h" || line == "help"
  }

  /** The `if` chain of `repl`; `number` is `Number(...)`, giving `None` when
      the text is not an integer. */
  function Classify(line: string, number: string -> Option<int>): (c: Command)
    ensures c.AddSecret? ==> ' ' !in c.secret && (c.desc.Some? ==> ' ' !in c.desc.value)
    ensures c.AddUri? ==> ' ' !in c.uri
  {
    if IsHelp(line) then Help
    else if StartsWith(line, "a ") || StartsWith(line, "u ") || StartsWith(line, "d ") || StartsWith(line, "s ") then
      assert line[1] == ' ';
      var arr := Split(line);
      if StartsWith(line, "a ") then AddSecret(arr[1], if |arr| > 2 then Some(arr[2]) else None)
      else if StartsWith(line, "u ") then AddUri(arr[1])
      else if StartsWith(line, "d ") then Delete(number(arr[1]))
      else Show(number(arr[1]))
    else List
  }

  /** Help is chosen by exactly the three help words. */
  lemma {:induction false} ClassifyHelp(line: string, number: string -> Option<int>)
    ensures Classify(line, number).Help? <==> line == "?" || line == "h" || line == "help"
  {
  }

  /** Listing is the fallback for every line that is no help word and has none
      of the four command prefixes, the empty line included. */
  lemma {:induction false} ClassifyList(line: string, number: string -> Option<int>)
    ensures Classify(line, number).List? <==>
      !IsHelp(line) && !("a " <= line) && !("u " <= line) && !("d " <= line) && !("s " <= line)
    ensures Classify("", number) == List
  {
  }

  /** An add-by-secret line keeps only its second and third space-separated
      fields: the description is the third field, and whatever follows the
      next space is dropped. */
  lemma {:induction false} AddTakesThirdField(secret: string, desc: string, more: seq<string>, number: string -> Option<int>)
    requires ' ' !in secret && ' ' !in desc
    requires forall i :: 0 <= i < |more| ==> ' ' !in more[i]
    ensures Classify(Join(["a", secret, desc] + more), number) == AddSecret(secret, Some(desc))
  {
    var fields := ["a", secret, desc] + more;
    SplitJoin(fields);
    assert Join(fields) == "a" + " " + Join(fields[1..]);
  }

  /** Without a third field the description is absent. */
  lemma {:induction false} AddWithoutDescription(secret: string, number: string -> Option<int>)
    requires ' ' !in secret
    ensures Classify("a " + secret, number) == AddSecret(secret, None)
  {
    assert "a " + secret == "a" + " " + secret;
    SplitField("a", secret);
    SplitNoSpace(secret);
  }

  /** An add-by-URI line takes the second field as the URI and drops the rest. */
  lemma {:induction false} UriIsSecondField(uri: string, more: seq<string>, number: string -> Option<int>)
    requires ' ' !in uri
    requires forall i :: 0 <= i < |more| ==> ' ' !in more[i]
    ensures Classify(Join(["u", uri] + more), number) == AddUri(uri)
  {
    var fields := ["u", uri] + more;
    SplitJoin(fields);
    assert Join(fields) == "u" + " " + Join(fields[1..]);
  }

  /** Delete and show read their index from the second field only. */
  lemma {:induction false} IndexIsSecondField(op: string, index: string, more: seq<string>, number: string -> Option<int>)
    requires op == "d" || op == "s"
    requires ' ' !in index
    requires forall i :: 0 <= i < |more| ==> ' ' !in more[i]
    ensures Classify(Join([op, index] + more), number) ==
      if op == "d" then Delete(number(index)) else Show(number(index))
  {
    var fields := [op, index] + more;
    SplitJoin(fields);
    assert Join(fields) == op + " " + Join(fields[1..]);
  }

  /** What one command reports. */
  datatype Outcome =
    | Helped
    | Added(record: Record)
    | Deleted(key: Option<string>)
    | Shown(detail: Option<Detail>)
    | Listed(rows: seq<Row>)
    | Failed(error: Error)

  /** One pass of the loop body of `repl`: run the command on the store; a
      thrown error is reported and the store keeps whatever state it had. */
  method Execute(main: OtpMain, cmd: Command, now: int) returns (out: Outcome)
    modifies main
    ensures out.Failed? ==> main.db == old(main.db)
    ensures cmd.Help? ==> out == Helped
    ensures cmd.Help? || cmd.Show? || cmd.List? ==> main.db == old(main.db)
    ensures cmd.AddSecret? && main.lib.totpUri(cmd.secret).None? ==> out == Failed(InvalidSecret)
    ensures cmd.AddSecret? && main.lib.totpUri(cmd.secret).Some? ==>
      out == Added(Record(main.lib.totpUri(cmd.secret).value, cmd.desc)) &&
      main.db == old(main.db)[cmd.secret := out.record]
    ensures cmd.AddUri? && main.lib.parse(cmd.uri).None? ==> out == Failed(MalformedUri)
    ensures cmd.AddUri? && main.lib.parse(cmd.uri).Some? ==>
      (var p := main.lib.parse(cmd.uri).value;
       out == Added(Record(cmd.uri, Some(p.issuer + " " + p.accountLabel))) &&
       main.db == old(main.db)[p.secret := out.record])
    ensures cmd.Delete? ==> out == Deleted(NthKey(old(main.Keys()), cmd.nth))
    ensures cmd.Delete? && out.key.None? ==> main.db == old(main.db)
    ensures cmd.Delete? && out.key.Some? ==> main.db == old(main.db) - {out.key.value}
    ensures cmd.Show? ==> out == match main.ShowNth(cmd.nth)
                                 case Ok(d) => Shown(d)
                                 case Err(e) => Failed(e)
    ensures cmd.List? ==> (out.Listed? <==> forall k :: k in main.db ==> main.Parses(k))
    ensures cmd.List? && out.Listed? ==> main.IsListing(out.rows, now)
  {
    match cmd
    case Help =>
      out := Helped;
    case AddSecret(secret, desc) =>
      var r := main.AddBySecret(secret, desc);
      out := if r.Ok? then Added(r.value) else Failed(r.error);
    case AddUri(uri) =>
      var r := main.AddByOtpUri(uri);
      out := if r.Ok? then Added(r.value) else Failed(r.error);
    case Delete(nth) =>
      var k := main.DeleteNth(nth);
      out := Deleted(k);
    case Show(nth) =>
      var r := main.ShowNth(nth);
      out := if r.Ok? then Shown(r.value) else Failed(r.error);
    case List =>
      var r := main.GenAll(now);
      out := if r.Ok? then Listed(r.value) else Failed(r.error);
  }
}
