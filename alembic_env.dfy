/**
 * The migration filter: which database objects schema autogeneration compares
 * against the models.  Tables of the PostGIS extension and its Tiger geocoder,
 * and every object in their schemas, are left alone.
 */
module AlembicEnv {
  import opened Wrappers

  /** The table names PostGIS and the Tiger geocoder create. */
  const PostgisTables: seq<string> := [
    "spatial_ref_sys", "geography_columns", "geometry_columns",
    "zip_lookup", "zip_lookup_base", "zip_lookup_all", "zip_state", "zip_state_loc",
    "county_lookup", "countysub_lookup", "cousub_lookup", "place_lookup",
    "secondary_unit_lookup", "street_type_lookup", "direction_lookup", "state_lookup",
    "geocode_settings", "geocode_settings_default",
    "loader_platform", "loader_variables", "loader_lookuptables",
    "pagc_gaz", "pagc_lex", "pagc_rules",
    "featnames", "faces", "edges", "addr", "addrfeat", "tabblock", "tract", "county",
    "topology", "zcta5", "place", "layer", "bg", "state", "tabblock20", "cousub"]

  /** Table-name prefixes of the extensions' tables. */
  const ExcludedPrefixes: seq<string> := ["tiger_", "tiger.", "topology.", "layer_"]

  /** Schemas owned by the extensions. */
  const ExcludedSchemas: set<string> := {"tiger", "topology", "postgis"}

  /** The part of a schema object the filter reads: its schema, None when the
      object has no `schema` attribute or it is unset. */
  datatype SchemaObject = SchemaObject(schema: Option<string>)

  /** Which objects migrations manage, stated as a rule: an object is left out when
      it is a table named like an extension table (by exact name or by prefix),
      or when it lives in an extension schema. */
  predicate Included(obj: SchemaObject, name: string, objectType: string) {
    && !(objectType == "table" &&
         (name in PostgisTables || exists k :: 0 <= k < |ExcludedPrefixes| && ExcludedPrefixes[k] <= name))
    && !(obj.schema.Some? && obj.schema.value in ExcludedSchemas)
  }

  /** `include_object`: the exact-name check, then the prefixes one by one, then the schema. */
  method IncludeObject(obj: SchemaObject, name: string, objectType: string) returns (included: bool)
    ensures included == Included(obj, name, objectType)
  {
    if objectType == "table" {
      if name in PostgisTables {
        return false;
      }
      for i := 0 to |ExcludedPrefixes|
        invariant forall k :: 0 <= k < i ==> !(ExcludedPrefixes[k] <= name)
      {
        if ExcludedPrefixes[i] <= name {
          return false;
        }
      }
    }
    if obj.schema.Some? && obj.schema.value in ExcludedSchemas {
      return false;
    }
    return true;
  }

  /** The letters the extension tables' names and prefixes start with. */
  const ExtensionInitials: set<char> := {'s', 'g', 'z', 'c', 'p', 'd', 'l', 'f', 'e', 'a', 't', 'b'}

  lemma ExtensionNamesInitials()
    ensures forall k :: 0 <= k < |PostgisTables| ==> |PostgisTables[k]| > 0 && PostgisTables[k][0] in ExtensionInitials
    ensures forall k :: 0 <= k < |ExcludedPrefixes| ==> |ExcludedPrefixes[k]| > 0 && ExcludedPrefixes[k][0] in ExtensionInitials
  {
  }

  /** A table whose name starts with any other letter is managed unless it sits in
      an extension schema. */
  lemma OtherInitialsIncluded(obj: SchemaObject, name: string)
    requires |name| > 0 && name[0] !in ExtensionInitials
    ensures Included(obj, name, "table") <==> obj.schema.None? || obj.schema.value !in ExcludedSchemas
  {
    ExtensionNamesInitials();
  }

  /** The application's own tables are managed, unless they are placed in an
      extension schema. */
  lemma AppTablesIncluded(obj: SchemaObject)
    requires obj.schema.None? || obj.schema.value !in ExcludedSchemas
    ensures Included(obj, "users", "table")
    ensures Included(obj, "road_networks", "table")
    ensures Included(obj, "road_edges", "table")
  {
    OtherInitialsIncluded(obj, "users");
    OtherInitialsIncluded(obj, "road_networks");
    OtherInitialsIncluded(obj, "road_edges");
  }

  /** Any table named with an extension prefix is left out, whatever its schema;
      a table called `edges` is left out although the application's own edges
      live in `road_edges`. */
  lemma ExtensionTablesExcluded(obj: SchemaObject, suffix: string)
    ensures !Included(obj, "tiger_" + suffix, "table")
    ensures !Included(obj, "tiger." + suffix, "table")
    ensures !Included(obj, "topology." + suffix, "table")
    ensures !Included(obj, "layer_" + suffix, "table")
    ensures !Included(obj, "edges", "table")
  {
    assert ExcludedPrefixes[0] <= "tiger_" + suffix;
    assert ExcludedPrefixes[1] <= "tiger." + suffix;
    assert ExcludedPrefixes[2] <= "topology." + suffix;
    assert ExcludedPrefixes[3] <= "layer_" + suffix;
  }

  /** Objects other than tables (columns, indexes, constraints) are filtered by
      schema alone, whatever their name. */
  lemma NonTablesFilteredBySchemaOnly(obj: SchemaObject, name: string, objectType: string)
    requires objectType != "table"
    ensures Included(obj, name, objectType) <==> obj.schema.None? || obj.schema.value !in ExcludedSchemas
  {
  }
}
