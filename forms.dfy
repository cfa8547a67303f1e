/**
 * The two loops over `FormData.entries()`: the profile form's, which gathers
 * every `skills` entry into a list, and the contact form's, which keeps only
 * the last value of each name; then the contact form's required-field check.
 */
module Forms {
  import opened Wrappers
  import opened Notices

  /** One `[name, value]` pair of `FormData.entries()`, in document order. */
  type Entry = (string, string)

  /** The profile record: every single-valued field, and the `skills` list when there was one. */
  datatype Profile = Profile(fields: map<string, string>, skills: Option<seq<string>>)

  const SkillsKey := "skills"

  /** The names occurring among the first `n` entries. */
  ghost function NamesIn(entries: seq<Entry>, n: nat): set<string>
    requires n <= |entries|
  {
    set i | 0 <= i < n :: entries[i].0
  }

  /** Among the first `n` entries, the last one named `name` has value `value`. */
  ghost predicate LastValueIn(entries: seq<Entry>, n: nat, name: string, value: string)
    requires n <= |entries|
  {
    exists i :: 0 <= i < n && entries[i] == (name, value) && forall j :: i < j < n ==> entries[j].0 != name
  }

  /** The values of the `skills` entries among the first `n` entries, in document order. */
  function SkillValues(entries: seq<Entry>, n: nat): seq<string>
    requires n <= |entries|
  {
    if n == 0 then []
    else SkillValues(entries, n - 1) + (if entries[n - 1].0 == SkillsKey then [entries[n - 1].1] else [])
  }

  /** `data`, built from all entries, keeps every name with its last value. */
  ghost predicate LastWriteWins(entries: seq<Entry>, data: map<string, string>, except: set<string>)
  {
    && data.Keys == NamesIn(entries, |entries|) - except
    && forall name :: name in data ==> LastValueIn(entries, |entries|, name, data[name])
  }

  /** What the profile loop produces from the entries. */
  ghost predicate IsProfileOf(entries: seq<Entry>, p: Profile) {
    && LastWriteWins(entries, p.fields, {SkillsKey})
    && p.skills == if SkillValues(entries, |entries|) == [] then None else Some(SkillValues(entries, |entries|))
  }

  /** A later entry with the same name replaces the recorded value. */
  lemma LastValueStep(entries: seq<Entry>, n: nat, data: map<string, string>, except: set<string>)
    requires n < |entries| && entries[n].0 !in except
    requires data.Keys == NamesIn(entries, n) - except
    requires forall name :: name in data ==> LastValueIn(entries, n, name, data[name])
    ensures var data' := data[entries[n].0 := entries[n].1];
      && data'.Keys == NamesIn(entries, n + 1) - except
      && forall name :: name in data' ==> LastValueIn(entries, n + 1, name, data'[name])
  {
    var (key, value) := entries[n];
    var data' := data[key := value];
    assert NamesIn(entries, n + 1) == NamesIn(entries, n) + {key};
    forall name | name in data' ensures LastValueIn(entries, n + 1, name, data'[name]) {
      if name == key {
        assert entries[n] == (name, data'[name]);
      } else {
        var i :| 0 <= i < n && entries[i] == (name, data[name]) && forall j :: i < j < n ==> entries[j].0 != name;
        assert forall j :: i < j < n + 1 ==> entries[j].0 != name;
      }
    }
  }

  /** The loop of `submitProfile`. */
  method SubmitProfile(entries: seq<Entry>) returns (p: Profile)
    ensures IsProfileOf(entries, p)
  {
    var fields: map<string, string> := map[];
    var skills: Option<seq<string>> := None;
    var n := 0;
    while n < |entries|
      invariant 0 <= n <= |entries|
      invariant fields.Keys == NamesIn(entries, n) - {SkillsKey}
      invariant forall name :: name in fields ==> LastValueIn(entries, n, name, fields[name])
      invariant skills == if SkillValues(entries, n) == [] then None else Some(SkillValues(entries, n))
    {
      var (key, value) := entries[n];
      if key == SkillsKey {
        if skills.None? {
          skills := Some([]);
        }
        skills := Some(skills.value + [value]);
        assert SkillValues(entries, n + 1) == SkillValues(entries, n) + [value];
        assert NamesIn(entries, n + 1) == NamesIn(entries, n) + {key};
        forall name | name in fields ensures LastValueIn(entries, n + 1, name, fields[name]) {
          var i :| 0 <= i < n && entries[i] == (name, fields[name]) && forall j :: i < j < n ==> entries[j].0 != name;
          assert forall j :: i < j < n + 1 ==> entries[j].0 != name;
        }
      } else {
        LastValueStep(entries, n, fields, {SkillsKey});
        fields := fields[key := value];
        assert SkillValues(entries, n + 1) == SkillValues(entries, n);
      }
      n := n + 1;
    }
    p := Profile(fields, skills);
  }

  /** The loop of `handleContactSubmit`: every name, `skills` included, keeps its last value. */
  method CollectEntries(entries: seq<Entry>) returns (data: map<string, string>)
    ensures LastWriteWins(entries, data, {})
  {
    data := map[];
    var n := 0;
    while n < |entries|
      invariant 0 <= n <= |entries|
      invariant data.Keys == NamesIn(entries, n) - {}
      invariant forall name :: name in data ==> LastValueIn(entries, n, name, data[name])
    {
      LastValueStep(entries, n, data, {});
      data := data[entries[n].0 := entries[n].1];
      n := n + 1;
    }
  }

  /** `data.name` and the like: present and not the empty string. */
  predicate Filled(data: map<string, string>, name: string) {
    name in data && data[name] != ""
  }

  /** The last entry named `name` exists and has a non-empty value. */
  ghost predicate LastFilled(entries: seq<Entry>, name: string) {
    exists v :: v != "" && LastValueIn(entries, |entries|, name, v)
  }

  datatype ContactOutcome = Rejected | Sent(message: map<string, string>)

  /**
   * `handleContactSubmit`: a message lacking a name, an e-mail address or a
   * text is refused with an error; otherwise it is sent. `notices` are the
   * `showMessage` calls, the last one made by the timer callback.
   */
  method HandleContactSubmit(entries: seq<Entry>) returns (outcome: ContactOutcome, notices: seq<Notice>)
    ensures outcome.Rejected? <==>
      !(LastFilled(entries, "name") && LastFilled(entries, "email") && LastFilled(entries, "message"))
    ensures outcome.Sent? ==> LastWriteWins(entries, outcome.message, {})
    ensures notices == if outcome.Rejected? then [FillRequired] else [SendingMessage, MessageSent]
  {
    var data := CollectEntries(entries);
    FilledIffLastFilled(entries, data, "name");
    FilledIffLastFilled(entries, data, "email");
    FilledIffLastFilled(entries, data, "message");
    if !Filled(data, "name") || !Filled(data, "email") || !Filled(data, "message") {
      return Rejected, [FillRequired];
    }
    outcome, notices := Sent(data), [SendingMessage, MessageSent];
  }

  /** Testing the collected map is testing the last entry of the name. */
  lemma FilledIffLastFilled(entries: seq<Entry>, data: map<string, string>, name: string)
    requires LastWriteWins(entries, data, {})
    ensures Filled(data, name) <==> LastFilled(entries, name)
  {
    if LastFilled(entries, name) {
      var v :| v != "" && LastValueIn(entries, |entries|, name, v);
      var i :| 0 <= i < |entries| && entries[i] == (name, v) && forall j :: i < j < |entries| ==> entries[j].0 != name;
      assert name in NamesIn(entries, |entries|);
      LastValueUnique(entries, |entries|, name, v, data[name]);
    }
  }

  /** At most one map keeps the last value of every name. */
  lemma LastWriteWinsUnique(entries: seq<Entry>, data: map<string, string>)
    requires LastWriteWins(entries, data, {})
    ensures forall other :: LastWriteWins(entries, other, {}) ==> other == data
  {
    forall other | LastWriteWins(entries, other, {}) ensures other == data {
      forall name | name in data ensures other[name] == data[name] {
        LastValueUnique(entries, |entries|, name, data[name], other[name]);
      }
    }
  }

  /** The last entry of a name has one value. */
  lemma LastValueUnique(entries: seq<Entry>, n: nat, name: string, v: string, w: string)
    requires n <= |entries| && LastValueIn(entries, n, name, v) && LastValueIn(entries, n, name, w)
    ensures v == w
  {
    var i :| 0 <= i < n && entries[i] == (name, v) && forall j :: i < j < n ==> entries[j].0 != name;
    var k :| 0 <= k < n && entries[k] == (name, w) && forall j :: k < j < n ==> entries[j].0 != name;
    assert i == k;
  }

  /** The profile loop's result is determined by the entries. */
  lemma ProfileUnique(entries: seq<Entry>, p: Profile, q: Profile)
    requires IsProfileOf(entries, p) && IsProfileOf(entries, q)
    ensures p == q
  {
    forall name | name in p.fields ensures q.fields[name] == p.fields[name] {
      LastValueUnique(entries, |entries|, name, p.fields[name], q.fields[name]);
    }
  }

  /** A name followed by two skills gives the name and both skills in order. */
  lemma SubmissionExample(entries: seq<Entry>, p: Profile)
    requires entries == [("name", "X"), ("skills", "A"), ("skills", "B")]
    requires IsProfileOf(entries, p)
    ensures p.fields == map["name" := "X"] && p.skills == Some(["A", "B"])
  {
    assert SkillValues(entries, 3) == ["A", "B"] by {
      assert SkillValues(entries, 1) == [];
      assert SkillValues(entries, 2) == ["A"];
    }
    assert NamesIn(entries, 3) == {"name", "skills"} by {
      assert entries[0].0 == "name" && entries[1].0 == "skills";
    }
    assert "name" in p.fields;
    LastValueUnique(entries, 3, "name", p.fields["name"], "X");
  }
}
