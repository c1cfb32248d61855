/** The output side: Biopython's SeqFeature / FeatureLocation / SeqRecord, reduced to
    the values `gff_to_gbk` builds and changes. */
module Genbank {
  import opened Wrappers

  /** A zero-based, end-exclusive location with its strand (None = unstranded). */
  datatype Location = Location(start: int, end: int, strand: Option<int>)

  /** A qualifier value: one text or a list of terms. */
  datatype Qualifier = Text(text: string) | Terms(terms: seq<string>)

  datatype Feature = Feature(kind: string, location: Location, qualifiers: map<string, Qualifier>)

  /** A contig record: id, sequence, record-level annotations, and its feature list. */
  datatype Record = Record(id: string, sequence: seq<char>, annotations: map<string, Qualifier>, features: seq<Feature>)

  const LocusTag: string := "locus_tag"

  /** `feature.qualifiers[name] = value`: everything else about the feature is kept. */
  function SetQualifier(f: Feature, name: string, value: Qualifier): Feature {
    f.(qualifiers := f.qualifiers[name := value])
  }
}
