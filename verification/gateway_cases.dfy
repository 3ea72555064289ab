/**
 Concrete inputs from `cmd/sachet`'s tests, evaluated on the model: the
 default-text cases of `handlers_test.go` and the error body of
 `main_test.go`.
 */
module GatewayCases {
  import opened AlertText
  import opened GoMaps
  import opened Dispatch
  import Text
  import Sorting
  import Decimal
  import JsonText

  /** A payload with nothing in it renders as the bare header. */
  lemma EmptyPayloadText(order: SectionOrder)
    ensures NewAlertText(Data("", "", [], []), order, []) == "Alert \n"
  {
  }

  /** One alert without labels and an empty status renders as a blank status line. */
  lemma EmptyAlertText(order: SectionOrder)
    ensures NewAlertText(Data("", "", [Alert("", map[])], []), order, []) == " \n"
  {
    assert Text.ToUpper("") == "";
    assert Sorting.Sort([]) == [];
  }

  /** With no alerts, the common label values follow the header, separated by " | ". */
  lemma CommonLabelsText(order: SectionOrder)
    ensures NewAlertText(Data("", "", [], ["a", "b", "c"]), order, []) == "Alert \na | b | c"
  {
    assert Text.Join(["c"], " | ") == "c";
    assert Text.Join(["b", "c"], " | ") == "b | c";
    assert Text.Join(["a", "b", "c"], " | ") == "a | b | c";
  }

  const TestLabels: map<string, string> := map["alertname" := "a", "instance" := "a", "exported_instance" := "a"]

  /** The text the code produces for the labelled alert of `handlers_test.go`. */
  const SortedLabelsText: string := " \n" + "alertname= a\n" + "exported_instance= a\n" + "instance= a"

  /** The text `handlers_test.go` expects for it. */
  const ExpectedByTest: string := " \n" + "alertname= a\n" + "instance= a\n" + "exported_instance= a"

  const SortedKeys: seq<string> := ["alertname", "exported_instance", "instance"]
  const SortedTuples: seq<string> := ["alertname= a", "exported_instance= a", "instance= a"]

  lemma TestTuple(k: string)
    requires k in TestLabels
    ensures Tuple(k, Label(TestLabels, k)) == k + "= a"
  {
  }

  lemma TestTuples()
    ensures Tuples(TestLabels, SortedKeys) == SortedTuples
  {
    TestTuple("alertname");
    TestTuple("exported_instance");
    TestTuple("instance");
    assert "alertname" + "= a" == "alertname= a";
    assert "exported_instance" + "= a" == "exported_instance= a";
    assert "instance" + "= a" == "instance= a";
    assert Tuples(TestLabels, []) == [];
    assert ["instance"][1..] == [];
    assert Tuples(TestLabels, ["instance"]) == ["instance= a"];
    assert ["exported_instance", "instance"][1..] == ["instance"];
    assert Tuples(TestLabels, ["exported_instance", "instance"]) == ["exported_instance= a", "instance= a"];
    assert SortedKeys[1..] == ["exported_instance", "instance"];
  }

  lemma TestTuplesSorted()
    ensures Sorting.Sorted(SortedTuples)
  {
    assert Sorting.LessEq(SortedTuples[0], SortedTuples[1]);
    assert Sorting.LessEq(SortedTuples[1], SortedTuples[2]);
    assert Sorting.LessEq(SortedTuples[0], SortedTuples[2]);
  }

  lemma TestTuplesJoined()
    ensures Text.Join(SortedTuples, "\n") == "alertname= a" + "\n" + ("exported_instance= a" + "\n" + "instance= a")
  {
    assert SortedTuples[1..][1..] == ["instance= a"];
    assert Text.Join(SortedTuples[1..], "\n") == "exported_instance= a" + "\n" + "instance= a";
  }

  lemma SortTestTuples(t: seq<string>)
    requires t == SortedTuples
    ensures Sorting.Sort(t) == SortedTuples
  {
    TestTuplesSorted();
    Sorting.SortOfSorted(t);
  }

  lemma JoinedText(u: seq<string>)
    requires u == SortedTuples
    ensures " \n" + Text.Join(u, "\n") == SortedLabelsText
  {
    TestTuplesJoined();
  }

  lemma SortedKeysTuples(labels: map<string, string>, keys: seq<string>)
    requires labels == TestLabels && keys == SortedKeys
    ensures Sorting.Sort(Tuples(labels, keys)) == SortedTuples
  {
    var t := Tuples(labels, keys);
    TestTuples();
    SortTestTuples(t);
  }

  lemma SortedKeysText(labels: map<string, string>, keys: seq<string>)
    requires labels == TestLabels && keys == SortedKeys
    ensures SingleAlertText("", labels, keys) == SortedLabelsText
  {
    var body := Text.Join(Sorting.Sort(Tuples(labels, keys)), "\n");
    SortedKeysTuples(labels, keys);
    JoinedText(Sorting.Sort(Tuples(labels, keys)));
    assert " \n" + body == SortedLabelsText;
    BlankStatusLine();
  }

  /** An empty status leaves the status line blank. */
  lemma BlankStatusLine()
    ensures Text.ToUpper("") + " \n" == " \n"
  {
    assert Text.ToUpper("") == "";
  }

  lemma SortedKeysEnumerate()
    ensures Enumerates(SortedKeys, TestLabels)
  {
    assert TestLabels.Keys == {"alertname", "exported_instance", "instance"};
  }

  lemma TextsDiffer()
    ensures SortedLabelsText != ExpectedByTest
  {
    assert SortedLabelsText[15] != ExpectedByTest[15];
  }

  /**
   However Go ranges over the three labels, the text lists
   `exported_instance` before `instance`, which is not what the test expects.
   */
  lemma LabelledAlertText(data: Data, keys: seq<string>, order: SectionOrder)
    requires data == Data("", "", [Alert("", TestLabels)], [])
    requires Enumerates(keys, TestLabels)
    ensures NewAlertText(data, order, keys) == SortedLabelsText
    ensures NewAlertText(data, order, keys) != ExpectedByTest
  {
    assert NewAlertText(data, order, keys) == SingleAlertText("", TestLabels, keys);
    SortedKeysEnumerate();
    SingleAlertTextOrderFree("", TestLabels, keys, SortedKeys);
    SortedKeysText(TestLabels, SortedKeys);
    TextsDiffer();
  }

  const SpacedLabels: map<string, string> := map["a" := "x", "a b" := "y"]

  lemma SpacedTuples(labels: map<string, string>, keys: seq<string>)
    requires labels == SpacedLabels && keys == ["a", "a b"]
    ensures Tuples(labels, keys) == ["a= x", "a b= y"]
  {
    assert Label(labels, "a") == "x";
    assert Label(labels, "a b") == "y";
    assert Tuple("a", "x") == "a= x";
    assert Tuple("a b", "y") == "a b= y";
    assert keys[1..] == ["a b"];
    assert ["a b"][1..] == [];
    assert Tuples(labels, []) == [];
    assert Tuples(labels, ["a b"]) == ["a b= y"];
  }

  lemma SpacedSort(t: seq<string>)
    requires t == ["a= x", "a b= y"]
    ensures Sorting.Sort(t) == ["a b= y", "a= x"]
  {
    var sorted := ["a b= y", "a= x"];
    assert Sorting.LessEq("a b= y", "a= x");
    assert Sorting.Sorted(sorted);
    assert multiset(sorted) == multiset(t);
    Sorting.SortedUnique(Sorting.Sort(t), sorted);
  }

  lemma FiringLine()
    ensures Text.ToUpper("firing") + " \n" == "FIRING \n"
  {
    assert Text.ToUpper("firing") == "FIRING";
  }

  lemma SpacedText(labels: map<string, string>, keys: seq<string>)
    requires labels == SpacedLabels && keys == ["a", "a b"]
    ensures SingleAlertText("firing", labels, keys) == "FIRING \n" + "a b= y\na= x"
  {
    SpacedTuples(labels, keys);
    SpacedSort(Tuples(labels, keys));
    assert Text.Join(["a b= y", "a= x"], "\n") == "a b= y\na= x";
    FiringLine();
  }

  /**
   The tuples are ordered as whole `k= v` strings, not by key: the key
   `a b` sorts before the key `a` because a space sorts before `=`.
   */
  lemma WholeStringOrder(labels: map<string, string>, keys: seq<string>)
    requires labels == SpacedLabels && Enumerates(keys, labels)
    ensures SingleAlertText("firing", labels, keys) == "FIRING \n" + "a b= y\na= x"
  {
    assert labels.Keys == {"a", "a b"};
    assert Enumerates(["a", "a b"], labels);
    SingleAlertTextOrderFree("firing", labels, keys, ["a", "a b"]);
    SpacedText(labels, ["a", "a b"]);
  }

  lemma Format403()
    ensures Decimal.FormatInt(403) == "403"
  {
    assert Decimal.FormatNat(4) == "4";
    assert Decimal.FormatNat(40) == Decimal.FormatNat(4) + "0";
    assert Decimal.FormatNat(403) == Decimal.FormatNat(40) + "3";
  }

  /** Lower-case words and spaces are written without escapes. */
  lemma {:induction false} PlainWords(s: string)
    requires forall i :: 0 <= i < |s| ==> 'a' <= s[i] <= 'z' || s[i] == ' '
    ensures JsonText.Escape(s) == s
  {
    if |s| > 0 {
      PlainWords(s[1..]);
      assert JsonText.EscapeChar(s[0]) == [s[0]];
      assert [s[0]] + s[1..] == s;
    }
  }

  /** The body `main_test.go` expects for a 403 "access forbidden". */
  const ForbiddenJson: string := "{\"Error\":true,\"Status\":" + ("403" + (",\"Message\":\"" + ("access forbidden" + "\"}")))

  lemma ForbiddenErrorBody(status: int, err: string)
    requires status == 403 && err == "access forbidden"
    ensures ErrorBody(status, err) == ForbiddenJson
  {
    assert Decimal.FormatInt(status) == "403" by { Format403(); }
    assert JsonText.Escape(err) == err by { PlainWords(err); }
    ErrorBodyParts(status, err, "403", err);
  }

  /** The error body is its four fixed parts around the status and the escaped message. */
  lemma ErrorBodyParts(status: int, err: string, number: string, escaped: string)
    requires Decimal.FormatInt(status) == number && JsonText.Escape(err) == escaped
    ensures ErrorBody(status, err) == BodyHead + (number + (MessageKey + (escaped + "\"}")))
  {
  }

  /** The response `errorHandler` writes for a 403 "access forbidden" from the provider "test". */
  lemma ForbiddenBody(status: int, err: string, provider: string)
    requires status == 403 && err == "access forbidden" && provider == "test"
    ensures ErrorResponse(status, err, provider).body == ForbiddenJson
    ensures ErrorResponse(status, err, provider).counter == ("403", "test")
  {
    Format403();
    ForbiddenErrorBody(status, err);
  }
}
