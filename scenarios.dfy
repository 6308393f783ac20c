/** Concrete runs of the normalization and the views, on small responses. */
module Scenarios {
  import opened Normalization
  import opened Warranty
  import opened StringOrder

  function RecordWith(tag: Tag, field: string, value: string): Record
  {
    Record(tag, map[field := value], [])
  }

  /** A two-record list yields one ship date per tag. */
  lemma ShipDatesOfList()
    ensures var rs := [RecordWith("A", "shipDate", "2021-01-01"), RecordWith("B", "shipDate", "2021-02-02")];
      Project(Index(rs), "shipDate") == map["A" := "2021-01-01", "B" := "2021-02-02"]
  {
  }

  /** A repeated tag keeps the later record, so one entry remains. */
  lemma DuplicateTagOverwrites()
    ensures var rs := [RecordWith("A", "shipDate", "2020-01-01"), RecordWith("A", "shipDate", "2022-02-02")];
      Index(rs) == map["A" := rs[1]] && |Index(rs)| == 1
  {
  }

  /** A single object asked for under "Z" is stored under "Z", whatever tag it carries. */
  lemma SingleObjectKeyedByRequest(prior: map<Tag, Record>)
    requires UniqueTags(prior)
    ensures var r := Record("Y", map["field" := "x"], []);
      Normalize(prior, "Z", Response(HttpOk, Single(r))) == map["Z" := r]
  {
  }

  /** The latest of three end dates is found wherever it stands in the list. */
  lemma LatestOfThree()
    ensures LatestEndDate([Entitlement("2022-01-01"), Entitlement("2023-06-15"), Entitlement("2020-03-03")]) == "2023-06-15"
  {
    var ents := [Entitlement("2022-01-01"), Entitlement("2023-06-15"), Entitlement("2020-03-03")];
    assert ents[..2][..1] == ents[..1] && ents[..1][..0] == [] && ents[..3 - 1] == ents[..2];
    assert LatestEndDate(ents[..1]) == "2022-01-01" by {
      EmptyIsLeast("2022-01-01");
    }
    assert LatestEndDate(ents[..2]) == "2023-06-15" by {
      assert Less("2022-01-01", "2023-06-15") by {
        assert "2022-01-01"[3..] == ['2'] + "-01-01";
        assert "2023-06-15"[3..] == ['3'] + "-06-15";
      }
    }
    assert !Less("2023-06-15", "2020-03-03") by {
      assert "2023-06-15"[3..] == ['3'] + "-06-15";
      assert "2020-03-03"[3..] == ['0'] + "-03-03";
    }
  }
}
