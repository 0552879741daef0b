/** A worked example: database `shop` with table `orders`
    holding column `email` of type `TEXT`, the providers `NodeType`,
    `CaptureDate` and a `FindAndTag` rule tagging columns whose identifier
    contains `email`. */
module Example {
  import opened Common
  import opened Text
  import opened Identifier
  import opened Metadata
  import opened Source
  import opened Engine

  const ShopRule: Rule := Rule("pii", Some(OneType("column")), Some("email"), Some("pii_email"))
  const ShopSource: Source := SQLite([TableInfo("orders", [ColumnInfo("email", "TEXT")])])
  const ShopConfig: Config := Config("shop", Some("NodeType,CaptureDate,FindAndTag"), None, Some("2023-06-01"),
                                     Some(map["FindAndTag" := [ShopRule]]))
  const ShopProviders: seq<Provider> := [NodeType, CaptureDate, FindAndTag([ShopRule])]
  const ShopUuid: string := "shop::orders::email::"

  lemma ShopNamesClean()
    ensures Clean("shop", Delimiter) && Clean("orders", Delimiter) && Clean("email", Delimiter)
  {
    forall i | 0 <= i < 4 ensures !Occurs("shop" + Delimiter, Delimiter, i) {
      assert ("shop" + Delimiter)[i] != ':';
    }
    forall i | 0 <= i < 6 ensures !Occurs("orders" + Delimiter, Delimiter, i) {
      assert ("orders" + Delimiter)[i] != ':';
    }
    forall i | 0 <= i < 5 ensures !Occurs("email" + Delimiter, Delimiter, i) {
      assert ("email" + Delimiter)[i] != ':';
    }
  }

  lemma ShopCatalog()
    ensures Tables(ShopSource) == ["orders"]
    ensures Columns(ShopSource, "orders") == ["email"]
    ensures TypeOf(ShopSource, "orders", "email") == Some("TEXT")
  {
  }

  lemma ShopPairs()
    ensures Pairs(ShopSource, Tables(ShopSource)) == [("orders", "email")]
  {
    ShopCatalog();
    assert ["orders"][1..] == [];
  }

  lemma ShopColumnUuid()
    ensures ColumnUuid("shop", ShopSource, "orders", "email") == ShopUuid
    ensures Uuid("shop", "orders", "email", Some("TEXT")) == ShopUuid
  {
  }

  const ShopFragments: seq<Fragment> := [
    map["object_type" := Str("column")],
    map["capture_date" := Str("2023-06-01")],
    map["tag_pii" := Str("pii_email")]]

  const ShopRecord: Record := map[
    "uuid" := Str(ShopUuid),
    "object_type" := Str("column"),
    "capture_date" := Str("2023-06-01"),
    "tag_pii" := Str("pii_email")]

  lemma ShopNodeType()
    ensures NodeTypeDerive(ShopUuid, ShopConfig) == Success(Single(map["object_type" := Str("column")]))
  {
    ShopNamesClean();
    ShopColumnUuid();
    NodeTypeOnUuid("shop", "orders", "email", Some("TEXT"), ShopConfig);
  }

  lemma ShopRuleFires()
    ensures Tags([ShopRule], "column", ShopUuid) == [map["tag_pii" := Str("pii_email")]]
  {
    assert ShopUuid[14..14 + 5] == "email";
    assert Occurs(ShopUuid, "email", 14);
    assert RuleMatches(ShopRule, "column", ShopUuid);
    assert [ShopRule][1..] == [];
    assert "tag_" + "pii" == "tag_pii";
    assert TagFragment(ShopRule) == map["tag_pii" := Str("pii_email")];
  }

  lemma ShopFindAndTag()
    ensures FindAndTagDerive([ShopRule], ShopUuid, ShopConfig) == Success(Several([map["tag_pii" := Str("pii_email")]]))
  {
    ShopNamesClean();
    ShopColumnUuid();
    FindAndTagOnUuid([ShopRule], "shop", "orders", "email", Some("TEXT"), ShopConfig);
    ShopRuleFires();
  }

  lemma ShopMerge()
    ensures MergeAll(map["uuid" := Str(ShopUuid)], ShopFragments) == ShopRecord
  {
    assert ShopFragments[1..] == [map["capture_date" := Str("2023-06-01")], map["tag_pii" := Str("pii_email")]];
    assert ShopFragments[1..][1..] == [map["tag_pii" := Str("pii_email")]];
  }
}
