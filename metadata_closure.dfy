/** The metadata closure the exporter maintains: every class it stores is
    what the reader returns for its key, every class has the property
    classes it names (those the reader resolves), every property class has
    its data type (if resolvable), every statement class has its subject
    and object classes, and every stored resource and statement has its
    class. */
module MetadataClosure {
  import opened SpecIF
  import opened Dicts
  import opened Readers
  import opened Closure

  // ---------------------------------------------------------------------
  // What "covered" and "closed" mean

  ghost predicate PropertyCovered(meta: MetadataReader, acc: Accumulators, pk: Key)
  {
    meta.GetPropertyClassByKey(pk).Some? ==> pk in acc.PropertyClasses.Entries
  }

  ghost predicate DataTypeCovered(meta: MetadataReader, acc: Accumulators, pc: PropertyClass)
  {
    meta.GetDataTypeByKey(pc.DataType).Some? ==> pc.DataType in acc.DataTypes.Entries
  }

  /** A resource-class reference is covered when its canonical key, if the
      reader resolves it, is a key of ResourceClasses. */
  ghost predicate ResourceClassCovered(meta: MetadataReader, acc: Accumulators, ck: Key)
  {
    meta.GetResourceClassByKey(ResourceClassKey(meta, ck)).Some? ==> ResourceClassKey(meta, ck) in acc.ResourceClasses.Entries
  }

  /** A statement-class reference is covered when, if the reader resolves it,
      it is itself a key of StatementClasses. */
  ghost predicate StatementClassCovered(meta: MetadataReader, acc: Accumulators, ck: Key)
  {
    meta.GetStatementClassByKey(ck).Some? ==> ck in acc.StatementClasses.Entries
  }

  /** Stored property classes and data types are the reader's, and every
      stored property class has its data type. */
  ghost predicate PropertiesSound(meta: MetadataReader, acc: Accumulators)
  {
    && (forall k :: k in acc.PropertyClasses.Entries ==> meta.GetPropertyClassByKey(k) == Some(acc.PropertyClasses.Entries[k]))
    && (forall k :: k in acc.DataTypes.Entries ==> meta.GetDataTypeByKey(k) == Some(acc.DataTypes.Entries[k]))
    && (forall k :: k in acc.PropertyClasses.Entries ==> DataTypeCovered(meta, acc, acc.PropertyClasses.Entries[k]))
  }

  /** Stored resource and statement classes are the reader's. */
  ghost predicate ClassesSound(meta: MetadataReader, acc: Accumulators)
  {
    && (forall k :: k in acc.ResourceClasses.Entries ==> meta.GetResourceClassByKey(k) == Some(acc.ResourceClasses.Entries[k]))
    && (forall k :: k in acc.StatementClasses.Entries ==> meta.GetStatementClassByKey(k) == Some(acc.StatementClasses.Entries[k]))
  }

  /** Every stored class has the property classes it names. */
  ghost predicate ClassPropertiesClosed(meta: MetadataReader, acc: Accumulators)
  {
    && (forall k, pk :: k in acc.ResourceClasses.Entries && pk in acc.ResourceClasses.Entries[k].PropertyClasses
          ==> PropertyCovered(meta, acc, pk))
    && (forall k, pk :: k in acc.StatementClasses.Entries && pk in Listed(acc.StatementClasses.Entries[k].PropertyClasses)
          ==> PropertyCovered(meta, acc, pk))
  }

  /** Every stored statement class has its subject and object classes. */
  ghost predicate EndpointsClosed(meta: MetadataReader, acc: Accumulators)
  {
    forall k, ck :: k in acc.StatementClasses.Entries && ck in Endpoints(acc.StatementClasses.Entries[k])
      ==> ResourceClassCovered(meta, acc, ck)
  }

  /** All of the metadata closure except the statement classes' endpoints. */
  ghost predicate ClassesClosed(meta: MetadataReader, acc: Accumulators)
  {
    PropertiesSound(meta, acc) && ClassesSound(meta, acc) && ClassPropertiesClosed(meta, acc)
  }

  ghost predicate MetadataClosed(meta: MetadataReader, acc: Accumulators)
  {
    ClassesClosed(meta, acc) && EndpointsClosed(meta, acc)
  }

  /** Every stored resource and statement has its class. */
  ghost predicate InstancesClosed(meta: MetadataReader, acc: Accumulators)
  {
    && (forall k :: k in acc.Resources.Entries ==> ResourceClassCovered(meta, acc, acc.Resources.Entries[k].Class))
    && (forall k :: k in acc.Statements.Entries ==> StatementClassCovered(meta, acc, acc.Statements.Entries[k].Class))
  }

  /** The invariant of an export with metadata included. */
  ghost predicate Closed(meta: MetadataReader, acc: Accumulators)
  {
    MetadataClosed(meta, acc) && InstancesClosed(meta, acc)
  }

  // ---------------------------------------------------------------------
  // Growth keeps what is covered

  lemma PropertyStaysCovered(meta: MetadataReader, a: Accumulators, b: Accumulators, pk: Key)
    requires Extends(a, b) && PropertyCovered(meta, a, pk)
    ensures PropertyCovered(meta, b, pk)
  {
  }

  lemma ResourceClassStaysCovered(meta: MetadataReader, a: Accumulators, b: Accumulators, ck: Key)
    requires Extends(a, b) && ResourceClassCovered(meta, a, ck)
    ensures ResourceClassCovered(meta, b, ck)
  {
  }

  lemma StatementClassStaysCovered(meta: MetadataReader, a: Accumulators, b: Accumulators, ck: Key)
    requires Extends(a, b) && StatementClassCovered(meta, a, ck)
    ensures StatementClassCovered(meta, b, ck)
  {
  }

  /** Adding only property classes and data types keeps the classes' closure. */
  lemma ClassPropertiesStayClosed(meta: MetadataReader, a: Accumulators, b: Accumulators)
    requires Extends(a, b) && ClassPropertiesClosed(meta, a)
    requires b.ResourceClasses == a.ResourceClasses && b.StatementClasses == a.StatementClasses
    ensures ClassPropertiesClosed(meta, b)
  {
    forall k, pk | k in b.ResourceClasses.Entries && pk in b.ResourceClasses.Entries[k].PropertyClasses
      ensures PropertyCovered(meta, b, pk)
    {
      PropertyStaysCovered(meta, a, b, pk);
    }
    forall k, pk | k in b.StatementClasses.Entries && pk in Listed(b.StatementClasses.Entries[k].PropertyClasses)
      ensures PropertyCovered(meta, b, pk)
    {
      PropertyStaysCovered(meta, a, b, pk);
    }
  }

  /** Not adding statement classes keeps their endpoints closed. */
  lemma EndpointsStayClosed(meta: MetadataReader, a: Accumulators, b: Accumulators)
    requires Extends(a, b) && EndpointsClosed(meta, a)
    requires b.StatementClasses == a.StatementClasses
    ensures EndpointsClosed(meta, b)
  {
    forall k, ck | k in b.StatementClasses.Entries && ck in Endpoints(b.StatementClasses.Entries[k])
      ensures ResourceClassCovered(meta, b, ck)
    {
      ResourceClassStaysCovered(meta, a, b, ck);
    }
  }

  /** Adding only metadata keeps every instance's class covered. */
  lemma InstancesStayClosed(meta: MetadataReader, a: Accumulators, b: Accumulators)
    requires Extends(a, b) && SameInstances(a, b) && InstancesClosed(meta, a)
    ensures InstancesClosed(meta, b)
  {
    forall k | k in b.Resources.Entries
      ensures ResourceClassCovered(meta, b, b.Resources.Entries[k].Class)
    {
      ResourceClassStaysCovered(meta, a, b, b.Resources.Entries[k].Class);
    }
    forall k | k in b.Statements.Entries
      ensures StatementClassCovered(meta, b, b.Statements.Entries[k].Class)
    {
      StatementClassStaysCovered(meta, a, b, b.Statements.Entries[k].Class);
    }
  }

  // ---------------------------------------------------------------------
  // Property classes

  /** `AddPropertyClassMetadata` for one key stores the property class if the reader resolves it. */
  lemma PropertyClassAdded(meta: MetadataReader, acc: Accumulators, pk: Key)
    requires acc.Valid()
    ensures Extends(acc, AddPropertyClass(meta, acc, pk))
    ensures PropertyCovered(meta, AddPropertyClass(meta, acc, pk), pk)
  {
  }

  lemma {:induction false} PropertyClassesAdded(meta: MetadataReader, acc: Accumulators, pks: seq<Key>)
    requires acc.Valid()
    ensures Extends(acc, AddPropertyClasses(meta, acc, pks))
    ensures forall pk :: pk in pks ==> PropertyCovered(meta, AddPropertyClasses(meta, acc, pks), pk)
    decreases |pks|
  {
    if pks == [] {
      assert Extends(acc, acc);
    } else {
      var prefix, last := pks[..|pks| - 1], pks[|pks| - 1];
      var before := AddPropertyClasses(meta, acc, prefix);
      var r := AddPropertyClass(meta, before, last);
      PropertyClassesAdded(meta, acc, prefix);
      PropertyClassAdded(meta, before, last);
      ExtendsTransitive(acc, before, r);
      forall pk | pk in pks
        ensures PropertyCovered(meta, r, pk)
      {
        if pk != last {
          assert pk in prefix;
          PropertyStaysCovered(meta, before, r, pk);
        }
      }
    }
  }

  /** A property class is stored together with its data type, both as the reader gives them. */
  lemma PropertyClassSound(meta: MetadataReader, acc: Accumulators, pk: Key)
    requires acc.Valid() && PropertiesSound(meta, acc)
    ensures PropertiesSound(meta, AddPropertyClass(meta, acc, pk))
  {
    var r := AddPropertyClass(meta, acc, pk);
    if !acc.PropertyClasses.ContainsKey(pk) && meta.GetPropertyClassByKey(pk).Some? {
      var pc := meta.GetPropertyClassByKey(pk).value;
      assert r.PropertyClasses.Entries == acc.PropertyClasses.Entries[pk := pc];
      assert acc.DataTypes.Entries.Keys <= r.DataTypes.Entries.Keys;
      forall k | k in r.PropertyClasses.Entries
        ensures DataTypeCovered(meta, r, r.PropertyClasses.Entries[k])
      {
        if k != pk {
          assert DataTypeCovered(meta, acc, acc.PropertyClasses.Entries[k]);
        }
      }
    }
  }

  lemma {:induction false} PropertyClassesSound(meta: MetadataReader, acc: Accumulators, pks: seq<Key>)
    requires acc.Valid() && PropertiesSound(meta, acc)
    ensures PropertiesSound(meta, AddPropertyClasses(meta, acc, pks))
    decreases |pks|
  {
    if pks != [] {
      PropertyClassesSound(meta, acc, pks[..|pks| - 1]);
      PropertyClassSound(meta, AddPropertyClasses(meta, acc, pks[..|pks| - 1]), pks[|pks| - 1]);
    }
  }

  // ---------------------------------------------------------------------
  // Resource classes

  /** `AddMetadataForResource` stores the canonical class of the reference, if the reader resolves it. */
  lemma ResourceClassAdded(meta: MetadataReader, acc: Accumulators, ck: Key)
    requires acc.Valid()
    ensures Extends(acc, MetaForResource(meta, acc, ck))
    ensures ResourceClassCovered(meta, MetaForResource(meta, acc, ck), ck)
  {
    var classKey := ResourceClassKey(meta, ck);
    if !acc.ResourceClasses.ContainsKey(classKey) && meta.GetResourceClassByKey(classKey).Some? {
      var rc := meta.GetResourceClassByKey(classKey).value;
      var withClass := acc.(ResourceClasses := acc.ResourceClasses.Add(classKey, rc));
      PropertyClassesAdded(meta, withClass, rc.PropertyClasses);
      assert Extends(acc, withClass);
      ExtendsTransitive(acc, withClass, MetaForResource(meta, acc, ck));
    } else {
      assert Extends(acc, acc);
    }
  }

  /** The membership test is on the canonical key: a class already stored under it adds nothing. */
  lemma CanonicalKeyPresent(meta: MetadataReader, acc: Accumulators, ck: Key)
    requires acc.Valid() && ResourceClassKey(meta, ck) in acc.ResourceClasses.Entries
    ensures MetaForResource(meta, acc, ck) == acc
  {
  }

  /** Adding a reference's class metadata a second time changes nothing. */
  lemma MetaForResourceIdempotent(meta: MetadataReader, acc: Accumulators, ck: Key)
    requires acc.Valid()
    ensures MetaForResource(meta, MetaForResource(meta, acc, ck), ck) == MetaForResource(meta, acc, ck)
  {
    ResourceClassAdded(meta, acc, ck);
  }

  /** A reference without a revision and the own key of the class it
      resolves to are canonicalised alike, so that class is stored once:
      adding the metadata of the one after the other changes nothing. */
  lemma CanonicalKeyMerges(meta: MetadataReader, acc: Accumulators, a: Key)
    requires acc.Valid() && a.Revision == "" && meta.GetResourceClassByKey(a).Some?
    requires meta.GetResourceClassByKey(a).value.Revision != ""
    ensures var rc := meta.GetResourceClassByKey(a).value;
            var b := Key(rc.ID, rc.Revision);
            && ResourceClassKey(meta, a) == b && ResourceClassKey(meta, b) == b
            && MetaForResource(meta, MetaForResource(meta, acc, a), b) == MetaForResource(meta, acc, a)
  {
    MetaForResourceIdempotent(meta, acc, a);
  }

  lemma {:induction false} ResourceClassesAdded(meta: MetadataReader, acc: Accumulators, cks: seq<Key>)
    requires acc.Valid()
    ensures Extends(acc, MetaForResources(meta, acc, cks))
    ensures forall ck :: ck in cks ==> ResourceClassCovered(meta, MetaForResources(meta, acc, cks), ck)
    decreases |cks|
  {
    if cks == [] {
      assert Extends(acc, acc);
    } else {
      var prefix, last := cks[..|cks| - 1], cks[|cks| - 1];
      var before := MetaForResources(meta, acc, prefix);
      var r := MetaForResource(meta, before, last);
      ResourceClassesAdded(meta, acc, prefix);
      ResourceClassAdded(meta, before, last);
      ExtendsTransitive(acc, before, r);
      forall ck | ck in cks
        ensures ResourceClassCovered(meta, r, ck)
      {
        if ck != last {
          assert ck in prefix;
          ResourceClassStaysCovered(meta, before, r, ck);
        }
      }
    }
  }

  /** A resource class is stored together with its property classes. */
  lemma ResourceClassClosed(meta: MetadataReader, acc: Accumulators, ck: Key)
    requires acc.Valid() && ClassesClosed(meta, acc)
    ensures ClassesClosed(meta, MetaForResource(meta, acc, ck))
  {
    var classKey := ResourceClassKey(meta, ck);
    var r := MetaForResource(meta, acc, ck);
    if !acc.ResourceClasses.ContainsKey(classKey) && meta.GetResourceClassByKey(classKey).Some? {
      var rc := meta.GetResourceClassByKey(classKey).value;
      var withClass := acc.(ResourceClasses := acc.ResourceClasses.Add(classKey, rc));
      assert PropertiesSound(meta, withClass);
      PropertyClassesSound(meta, withClass, rc.PropertyClasses);
      PropertyClassesAdded(meta, withClass, rc.PropertyClasses);
      assert Extends(acc, withClass);
      ExtendsTransitive(acc, withClass, r);
      forall k, pk | k in r.ResourceClasses.Entries && pk in r.ResourceClasses.Entries[k].PropertyClasses
        ensures PropertyCovered(meta, r, pk)
      {
        if k != classKey {
          PropertyStaysCovered(meta, acc, r, pk);
        }
      }
      forall k, pk | k in r.StatementClasses.Entries && pk in Listed(r.StatementClasses.Entries[k].PropertyClasses)
        ensures PropertyCovered(meta, r, pk)
      {
        PropertyStaysCovered(meta, acc, r, pk);
      }
    }
  }

  lemma {:induction false} ResourceClassesClosed(meta: MetadataReader, acc: Accumulators, cks: seq<Key>)
    requires acc.Valid() && ClassesClosed(meta, acc)
    ensures ClassesClosed(meta, MetaForResources(meta, acc, cks))
    decreases |cks|
  {
    if cks != [] {
      ResourceClassesClosed(meta, acc, cks[..|cks| - 1]);
      ResourceClassClosed(meta, MetaForResources(meta, acc, cks[..|cks| - 1]), cks[|cks| - 1]);
    }
  }

  // ---------------------------------------------------------------------
  // Statement classes

  /** `AddMetadataForStatement` stores the statement class under the key the
      statement gives, if the reader resolves it. */
  lemma StatementClassAdded(meta: MetadataReader, acc: Accumulators, s: Statement)
    requires acc.Valid()
    ensures Extends(acc, MetaForStatement(meta, acc, s))
    ensures StatementClassCovered(meta, MetaForStatement(meta, acc, s), s.Class)
  {
    if !acc.StatementClasses.ContainsKey(s.Class) && meta.GetStatementClassByKey(s.Class).Some? {
      var sc := meta.GetStatementClassByKey(s.Class).value;
      var withClass := acc.(StatementClasses := acc.StatementClasses.Add(s.Class, sc));
      var withProperties := AddPropertyClasses(meta, withClass, Listed(sc.PropertyClasses));
      var withSubjects := MetaForResources(meta, withProperties, Listed(sc.SubjectClasses));
      var r := MetaForResources(meta, withSubjects, Listed(sc.ObjectClasses));
      assert Extends(acc, withClass);
      PropertyClassesAdded(meta, withClass, Listed(sc.PropertyClasses));
      ResourceClassesAdded(meta, withProperties, Listed(sc.SubjectClasses));
      ResourceClassesAdded(meta, withSubjects, Listed(sc.ObjectClasses));
      ExtendsTransitive(acc, withClass, withProperties);
      ExtendsTransitive(acc, withProperties, withSubjects);
      ExtendsTransitive(acc, withSubjects, r);
    } else {
      assert Extends(acc, acc);
    }
  }

  /** A statement class is stored together with its property classes and
      its subject and object classes, so the whole closure is kept. */
  lemma StatementClassClosed(meta: MetadataReader, acc: Accumulators, s: Statement)
    requires acc.Valid() && MetadataClosed(meta, acc)
    ensures MetadataClosed(meta, MetaForStatement(meta, acc, s))
  {
    if !acc.StatementClasses.ContainsKey(s.Class) && meta.GetStatementClassByKey(s.Class).Some? {
      var sc := meta.GetStatementClassByKey(s.Class).value;
      var withClass := acc.(StatementClasses := acc.StatementClasses.Add(s.Class, sc));
      var withProperties := AddPropertyClasses(meta, withClass, Listed(sc.PropertyClasses));
      var withSubjects := MetaForResources(meta, withProperties, Listed(sc.SubjectClasses));
      var r := MetaForResources(meta, withSubjects, Listed(sc.ObjectClasses));
      assert Extends(acc, withClass);
      assert PropertiesSound(meta, withClass);
      PropertyClassesAdded(meta, withClass, Listed(sc.PropertyClasses));
      PropertyClassesSound(meta, withClass, Listed(sc.PropertyClasses));
      ExtendsTransitive(acc, withClass, withProperties);
      ClassPropertiesOfNewStatementClass(meta, acc, withProperties, s.Class);
      ResourceClassesClosed(meta, withProperties, Listed(sc.SubjectClasses));
      ResourceClassesClosed(meta, withSubjects, Listed(sc.ObjectClasses));
      ResourceClassesAdded(meta, withProperties, Listed(sc.SubjectClasses));
      ResourceClassesAdded(meta, withSubjects, Listed(sc.ObjectClasses));
      ExtendsTransitive(acc, withProperties, withSubjects);
      NewStatementClassEndpoints(meta, acc, withSubjects, r, s.Class, sc);
    }
  }

  /** The endpoints step of `StatementClassClosed`: the old statement
      classes keep theirs, and the new one has its subject and object classes. */
  lemma NewStatementClassEndpoints(meta: MetadataReader, acc: Accumulators, mid: Accumulators, r: Accumulators, sk: Key, sc: StatementClass)
    requires EndpointsClosed(meta, acc) && Extends(acc, mid) && Extends(mid, r)
    requires r.StatementClasses.Entries == acc.StatementClasses.Entries[sk := sc]
    requires forall ck :: ck in Listed(sc.SubjectClasses) ==> ResourceClassCovered(meta, mid, ck)
    requires forall ck :: ck in Listed(sc.ObjectClasses) ==> ResourceClassCovered(meta, r, ck)
    ensures EndpointsClosed(meta, r)
  {
    ExtendsTransitive(acc, mid, r);
    forall k, ck | k in r.StatementClasses.Entries && ck in Endpoints(r.StatementClasses.Entries[k])
      ensures ResourceClassCovered(meta, r, ck)
    {
      if k != sk {
        ResourceClassStaysCovered(meta, acc, r, ck);
      } else if ck in Listed(sc.SubjectClasses) {
        ResourceClassStaysCovered(meta, mid, r, ck);
      }
    }
  }

  /** The step of `StatementClassClosed` after the new statement class's
      property classes are added: the classes' closure holds again. */
  lemma ClassPropertiesOfNewStatementClass(meta: MetadataReader, acc: Accumulators, b: Accumulators, sk: Key)
    requires acc.Valid() && ClassesClosed(meta, acc) && Extends(acc, b) && PropertiesSound(meta, b)
    requires b.ResourceClasses == acc.ResourceClasses
    requires sk !in acc.StatementClasses.Entries && meta.GetStatementClassByKey(sk).Some?
    requires b.StatementClasses.Entries == acc.StatementClasses.Entries[sk := meta.GetStatementClassByKey(sk).value]
    requires forall pk :: pk in Listed(meta.GetStatementClassByKey(sk).value.PropertyClasses) ==> PropertyCovered(meta, b, pk)
    ensures ClassesClosed(meta, b)
  {
    forall k, pk | k in b.ResourceClasses.Entries && pk in b.ResourceClasses.Entries[k].PropertyClasses
      ensures PropertyCovered(meta, b, pk)
    {
      PropertyStaysCovered(meta, acc, b, pk);
    }
    forall k, pk | k in b.StatementClasses.Entries && pk in Listed(b.StatementClasses.Entries[k].PropertyClasses)
      ensures PropertyCovered(meta, b, pk)
    {
      if k != sk {
        PropertyStaysCovered(meta, acc, b, pk);
      }
    }
  }
}
