/** Option tables of the API layer and the dictionary built from the storage options. */
module Constants {

  datatype StorageOption = StorageOption(title: string, value: string, icon: string)

  const StorageOptions: seq<StorageOption> := [
    StorageOption("本地", "local", "mdi-folder-multiple-outline"),
    StorageOption("阿里云盘", "alipan", "mdi-cloud-outline"),
    StorageOption("115网盘", "u115", "mdi-cloud-outline"),
    StorageOption("RClone", "rclone", "mdi-cloud-outline"),
    StorageOption("AList", "alist", "mdi-cloud-outline")
  ]

  datatype FilterRule = FilterRule(title: string, value: string)

  /** The rules at lines 30-37 of `src/api/constants.ts`. */
  const FilterRulesSlice1: seq<FilterRule> := [
    FilterRule("特效字幕", " SPECSUB "),
    FilterRule("中文字幕", " CNSUB "),
    FilterRule("国语配音", " CNVOI "),
    FilterRule("官种", " GZ "),
    FilterRule("排除: 国语配音", " !CNVOI "),
    FilterRule("粤语配音", " HKVOI "),
    FilterRule("排除: 粤语配音", " !HKVOI "),
    FilterRule("促销: 免费", " FREE ")
  ]

  /** The rules at lines 38-41 of `src/api/constants.ts`. */
  const FilterRulesSlice2: seq<FilterRule> := [
    FilterRule("分辨率: 4K", " 4K "),
    FilterRule("分辨率: 1080P", " 1080P "),
    FilterRule("分辨率: 720P", " 720P "),
    FilterRule("排除: 720P", " !720P ")
  ]

  /** The rules at lines 42-53 of `src/api/constants.ts`. */
  const FilterRulesSlice3: seq<FilterRule> := [
    FilterRule("质量: 蓝光原盘", " BLU "),
    FilterRule("排除: 蓝光原盘", " !BLU "),
    FilterRule("质量: BLURAY", " BLURAY "),
    FilterRule("排除: BLURAY", " !BLURAY "),
    FilterRule("质量: UHD", " UHD "),
    FilterRule("排除: UHD", " !UHD "),
    FilterRule("质量: REMUX", " REMUX "),
    FilterRule("排除: REMUX", " !REMUX "),
    FilterRule("质量: WEB-DL", " WEBDL "),
    FilterRule("排除: WEB-DL", " !WEBDL "),
    FilterRule("质量: 60fps", " 60FPS "),
    FilterRule("排除: 60fps", " !60FPS ")
  ]

  /** The rules at lines 54-57 of `src/api/constants.ts`. */
  const FilterRulesSlice4: seq<FilterRule> := [
    FilterRule("编码: H265", " H265 "),
    FilterRule("排除: H265", " !H265 "),
    FilterRule("编码: H264", " H264 "),
    FilterRule("排除: H264", " !H264 ")
  ]

  /** The rules at lines 58-67 of `src/api/constants.ts`. */
  const FilterRulesSlice5: seq<FilterRule> := [
    FilterRule("效果: 杜比视界", " DOLBY "),
    FilterRule("排除: 杜比视界", " !DOLBY "),
    FilterRule("效果: 杜比全景声", " ATMOS "),
    FilterRule("排除: 杜比全景声", " !ATMOS "),
    FilterRule("效果: HDR", " HDR "),
    FilterRule("排除: HDR", " !HDR "),
    FilterRule("效果: SDR", " SDR "),
    FilterRule("排除: SDR", " !SDR "),
    FilterRule("效果: 3D", " 3D "),
    FilterRule("排除: 3D", " !3D ")
  ]

  /**
   * The built-in filter rules, in the order of the source table. The table is
   * written as five consecutive slices only so that each slice is checked on its own.
   */
  const InnerFilterRules: seq<FilterRule> :=
    FilterRulesSlice1 + FilterRulesSlice2 + FilterRulesSlice3 + FilterRulesSlice4 + FilterRulesSlice5

  /** What the `reduce` has written after visiting `options` from left to right. */
  function DictOf(options: seq<StorageOption>): (dict: map<string, string>)
    ensures options != [] ==>
              var last := options[|options| - 1]; last.value in dict && dict[last.value] == last.title
  {
    if options == [] then map[]
    else DictOf(options[..|options| - 1])[options[|options| - 1].value := options[|options| - 1].title]
  }

  function Values(options: seq<StorageOption>): set<string>
  {
    set k | 0 <= k < |options| :: options[k].value
  }

  /** The option at `i` is the last one with its value. */
  ghost predicate LastWithValue(options: seq<StorageOption>, i: int) {
    0 <= i < |options| && forall j :: i < j < |options| ==> options[j].value != options[i].value
  }

  /**
   * `storageDict`: a reduce from `{}` that writes each option's value to its
   * title. Its keys are exactly the values, and each key maps to the title of
   * the last option carrying it.
   */
  method BuildStorageDict(options: seq<StorageOption>) returns (dict: map<string, string>)
    ensures dict.Keys == Values(options)
    ensures forall i :: LastWithValue(options, i) ==>
              options[i].value in dict && dict[options[i].value] == options[i].title
  {
    dict := map[];
    for n := 0 to |options|
      invariant dict == DictOf(options[..n])
    {
      var item := options[n];
      dict := dict[item.value := item.title];
      assert options[..n + 1][..n] == options[..n];
    }
    assert options[..|options|] == options;
    DictOfMeaning(options);
  }

  lemma {:induction false} DictOfKeys(options: seq<StorageOption>)
    ensures DictOf(options).Keys == Values(options)
    decreases |options|
  {
    if options != [] {
      var n := |options| - 1;
      var prefix := options[..n];
      DictOfKeys(prefix);
      assert Values(options) == Values(prefix) + {options[n].value} by {
        assert forall k :: 0 <= k < n ==> options[k] == prefix[k];
      }
    }
  }

  /** The specification of the reduce: the keys are the values, and the last writer's title wins. */
  lemma {:induction false} DictOfMeaning(options: seq<StorageOption>)
    ensures DictOf(options).Keys == Values(options)
    ensures forall i :: LastWithValue(options, i) ==>
              options[i].value in DictOf(options) && DictOf(options)[options[i].value] == options[i].title
    decreases |options|
  {
    DictOfKeys(options);
    if options != [] {
      var n := |options| - 1;
      var prefix := options[..n];
      DictOfMeaning(prefix);
      forall i | LastWithValue(options, i)
        ensures options[i].value in DictOf(options) && DictOf(options)[options[i].value] == options[i].title
      {
        if i < n {
          assert prefix[i] == options[i];
          assert options[n].value != options[i].value;
          assert LastWithValue(prefix, i);
        }
      }
    }
  }

  /** If two options shared a value, the later one's title would win. */
  lemma LaterOptionWins(a: StorageOption, b: StorageOption)
    requires a.value == b.value
    ensures DictOf([a, b]) == map[a.value := b.title]
  {
    assert [a, b][..1] == [a];
    assert [a][..0] == [];
    assert DictOf([a]) == map[a.value := a.title];
    assert DictOf([a, b]) == DictOf([a])[b.value := b.title];
  }

  /** The storage values are pairwise distinct, so every option is its value's last writer. */
  lemma StorageValuesDistinct()
    ensures |StorageOptions| == 5
    ensures forall i, j :: 0 <= i < j < |StorageOptions| ==> StorageOptions[i].value != StorageOptions[j].value
  {
  }

  lemma StorageValues()
    ensures Values(StorageOptions) == {"local", "alipan", "u115", "rclone", "alist"}
  {
    assert StorageOptions[0].value == "local";
    assert StorageOptions[1].value == "alipan";
    assert StorageOptions[2].value == "u115";
    assert StorageOptions[3].value == "rclone";
    assert StorageOptions[4].value == "alist";
  }

  /** `storageDict` has exactly five entries, one per storage, each with its title. */
  lemma StorageDictContents()
    ensures DictOf(StorageOptions).Keys == {"local", "alipan", "u115", "rclone", "alist"}
    ensures |DictOf(StorageOptions).Keys| == 5
    ensures forall i :: 0 <= i < |StorageOptions| ==>
              StorageOptions[i].value in DictOf(StorageOptions)
              && DictOf(StorageOptions)[StorageOptions[i].value] == StorageOptions[i].title
  {
    StorageValuesDistinct();
    DictOfKeys(StorageOptions);
    StorageValues();
    DictOfMeaning(StorageOptions);
    forall i | 0 <= i < |StorageOptions| ensures LastWithValue(StorageOptions, i) {}
  }

  /** A rule token wrapped in one leading and one trailing space, with none inside. */
  predicate SpaceWrapped(v: string) {
    |v| >= 3 && v[0] == ' ' && v[|v| - 1] == ' ' && forall k :: 1 <= k < |v| - 1 ==> v[k] != ' '
  }

  /** Every rule of one group is space-wrapped. */
  predicate GroupWrapped(rules: seq<FilterRule>) {
    forall k :: 0 <= k < |rules| ==> SpaceWrapped(rules[k].value)
  }

  lemma FilterRulesSlice1Wrapped() ensures GroupWrapped(FilterRulesSlice1) {}
  lemma FilterRulesSlice2Wrapped() ensures GroupWrapped(FilterRulesSlice2) {}
  lemma FilterRulesSlice3Wrapped() ensures GroupWrapped(FilterRulesSlice3) {}
  lemma FilterRulesSlice4Wrapped() ensures GroupWrapped(FilterRulesSlice4) {}
  lemma FilterRulesSlice5Wrapped() ensures GroupWrapped(FilterRulesSlice5) {}

  lemma GroupWrappedAppend(a: seq<FilterRule>, b: seq<FilterRule>)
    requires GroupWrapped(a) && GroupWrapped(b)
    ensures GroupWrapped(a + b)
  {
    assert forall k :: |a| <= k < |a + b| ==> (a + b)[k] == b[k - |a|];
  }

  /** Every built-in filter rule value is a space-wrapped token. */
  lemma FilterRulesSpaceWrapped()
    ensures |InnerFilterRules| == 38
    ensures forall k :: 0 <= k < |InnerFilterRules| ==> SpaceWrapped(InnerFilterRules[k].value)
  {
    FilterRulesSlice1Wrapped();
    FilterRulesSlice2Wrapped();
    FilterRulesSlice3Wrapped();
    FilterRulesSlice4Wrapped();
    FilterRulesSlice5Wrapped();
    GroupWrappedAppend(FilterRulesSlice1, FilterRulesSlice2);
    GroupWrappedAppend(FilterRulesSlice1 + FilterRulesSlice2, FilterRulesSlice3);
    GroupWrappedAppend(FilterRulesSlice1 + FilterRulesSlice2 + FilterRulesSlice3, FilterRulesSlice4);
    GroupWrappedAppend(FilterRulesSlice1 + FilterRulesSlice2 + FilterRulesSlice3 + FilterRulesSlice4, FilterRulesSlice5);
  }
}
