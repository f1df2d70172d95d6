/**
 * The infrastructure catalogue of the order-documentation page and the item count
 * shown in its header badge and in each layer's badge.
 */
module Infrastructure {

  import opened Options

  datatype Item = Item(name: string, kind: string)

  datatype Subcategory = Subcategory(name: string, items: seq<Item>)

  /** A layer lists its items either grouped into subcategories or directly. */
  datatype Layer = Layer(name: string, subcategories: Option<seq<Subcategory>>, items: Option<seq<Item>>)

  /** `subs.reduce((s, sub) => s + sub.items.length, acc)`. */
  function SubcategoryFold(subs: seq<Subcategory>, acc: int): (r: int)
    ensures r >= acc
  {
    if subs == [] then acc else SubcategoryFold(subs[1..], acc + |subs[0].items|)
  }

  /**
   * A layer's badge: the summed subcategory sizes when subcategories exist (an empty
   * array is truthy in JavaScript), otherwise `layer.items?.length || 0`.
   */
  function LayerCount(layer: Layer): (r: int)
    ensures r >= 0
  {
    if layer.subcategories.Some? then SubcategoryFold(layer.subcategories.value, 0)
    else if layer.items.Some? then |layer.items.value|
    else 0
  }

  /** The header badge: `layers.reduce((acc, layer) => acc + <layer count>, 0)`, left to right. */
  function LayersFold(layers: seq<Layer>, acc: int): (r: int)
    ensures r >= acc
  {
    if layers == [] then acc else LayersFold(layers[1..], acc + LayerCount(layers[0]))
  }

  function HeaderCount(layers: seq<Layer>): (r: int)
    ensures r >= 0
  {
    LayersFold(layers, 0)
  }

  /**
   * A layer the page can render: with subcategories it maps them, otherwise it maps
   * `layer.items` without `?.`, which throws a TypeError when `items` is missing.
   */
  predicate Renders(layer: Layer) {
    layer.subcategories.Some? || layer.items.Some?
  }

  /** The items a layer displays, flattened in display order. */
  function SubcategoryItems(subs: seq<Subcategory>): seq<Item> {
    if subs == [] then [] else subs[0].items + SubcategoryItems(subs[1..])
  }

  /** The items a layer displays; `None` where rendering it throws. */
  function LayerItems(layer: Layer): (r: Option<seq<Item>>)
    ensures r.Some? <==> Renders(layer)
  {
    if layer.subcategories.Some? then Some(SubcategoryItems(layer.subcategories.value))
    else if layer.items.Some? then Some(layer.items.value)
    else None
  }

  /** The items the whole catalogue displays; `None` where rendering some layer throws. */
  function AllItems(layers: seq<Layer>): (r: Option<seq<Item>>)
    ensures r.Some? <==> forall l :: l in layers ==> Renders(l)
  {
    if layers == [] then Some([])
    else match (LayerItems(layers[0]), AllItems(layers[1..]))
      case (Some(first), Some(rest)) => Some(first + rest)
      case _ =>
        assert layers[0] in layers;
        assert forall l :: l in layers[1..] ==> l in layers;
        None
  }

  /** The inner reduce adds the number of items the subcategories display. */
  lemma {:induction false} SubcategoryFoldCounts(subs: seq<Subcategory>, acc: int)
    ensures SubcategoryFold(subs, acc) == acc + |SubcategoryItems(subs)|
  {
    if subs != [] {
      SubcategoryFoldCounts(subs[1..], acc + |subs[0].items|);
    }
  }

  /**
   * A layer's badge is the number of items it displays; a layer the page cannot
   * render still shows a badge of 0.
   */
  lemma LayerCountIsItems(layer: Layer)
    ensures Renders(layer) ==> LayerCount(layer) == |LayerItems(layer).value|
    ensures !Renders(layer) ==> LayerCount(layer) == 0
  {
    if layer.subcategories.Some? {
      SubcategoryFoldCounts(layer.subcategories.value, 0);
    }
  }

  /** The left-to-right reduce adds, to its seed, the number of items every layer displays. */
  lemma {:induction false} LayersFoldCounts(layers: seq<Layer>, acc: int)
    requires forall l :: l in layers ==> Renders(l)
    ensures LayersFold(layers, acc) == acc + |AllItems(layers).value|
  {
    if layers != [] {
      assert layers[0] in layers;
      assert forall l :: l in layers[1..] ==> l in layers;
      LayerCountIsItems(layers[0]);
      LayersFoldCounts(layers[1..], acc + LayerCount(layers[0]));
    }
  }

  /** The header badge is the number of items on the page, for every catalogue the page can render. */
  lemma HeaderCountIsItems(layers: seq<Layer>)
    requires forall l :: l in layers ==> Renders(l)
    ensures HeaderCount(layers) == |AllItems(layers).value|
  {
    LayersFoldCounts(layers, 0);
  }

  /** The reduce is a sum: its seed passes through unchanged. */
  lemma {:induction false} LayersFoldShift(layers: seq<Layer>, acc: int)
    ensures LayersFold(layers, acc) == acc + HeaderCount(layers)
  {
    if layers != [] {
      LayersFoldShift(layers[1..], acc + LayerCount(layers[0]));
      LayersFoldShift(layers[1..], LayerCount(layers[0]));
    }
  }

  /** The header badge is additive over the layer list, whatever the data: it is the sum of the layer badges. */
  lemma {:induction false} HeaderCountConcat(a: seq<Layer>, b: seq<Layer>)
    ensures HeaderCount(a + b) == HeaderCount(a) + HeaderCount(b)
  {
    if a == [] {
      assert a + b == b;
    } else {
      assert (a + b)[0] == a[0] && (a + b)[1..] == a[1..] + b;
      HeaderCountConcat(a[1..], b);
      LayersFoldShift(a + b, 0);
      LayersFoldShift((a + b)[1..], LayerCount(a[0]));
      LayersFoldShift(a[1..], LayerCount(a[0]));
    }
  }

  /** The catalogue displays the items of its two halves, one after the other. */
  lemma {:induction false} AllItemsConcat(a: seq<Layer>, b: seq<Layer>)
    requires forall l :: l in a + b ==> Renders(l)
    ensures AllItems(a + b).value == AllItems(a).value + AllItems(b).value
  {
    assert forall l :: l in a ==> l in a + b;
    assert forall l :: l in b ==> l in a + b;
    if a == [] {
      assert a + b == b;
    } else {
      assert (a + b)[0] == a[0] && (a + b)[1..] == a[1..] + b;
      assert forall l :: l in a[1..] + b ==> l in a + b;
      AllItemsConcat(a[1..], b);
    }
  }

  /** The static catalogue: Compute (two subcategories), Networking, Data Layer, Security, Management. */
  const Layers: seq<Layer> := [
    Layer("Compute", Some([
      Subcategory("ECS Clusters (Control Plane)", [
        Item("services-cluster", "ECS Cluster"),
        Item("rabbitmq-cluster", "ECS Cluster")]),
      Subcategory("ECS Services (Workloads)", [
        Item("order-service", "ECS Service"),
        Item("inventory-service", "ECS Service"),
        Item("payment-service", "ECS Service"),
        Item("rabbitmq", "ECS Service")])]), None),
    Layer("Networking", None, Some([
      Item("ALB", "Application Load Balancer"),
      Item("VPC", "Virtual Private Cloud"),
      Item("Service Connect", "Cloud Map")])),
    Layer("Data Layer", None, Some([
      Item("order-service-db", "RDS PostgreSQL"),
      Item("inventory-service-db", "RDS PostgreSQL"),
      Item("payment-service-db", "RDS PostgreSQL"),
      Item("Redis", "ElastiCache")])),
    Layer("Security", None, Some([
      Item("Security Groups", "5 groups"),
      Item("KMS", "Key Management")])),
    Layer("Management", None, Some([
      Item("ECR", "Container Registry"),
      Item("CloudWatch Logs", "Logging"),
      Item("SSM Parameter Store", "Secrets"),
      Item("IAM Roles", "ECS Roles")]))
  ]

  /** Every layer of the static catalogue renders; the badges read 6, 3, 4, 2, 4, and the header reads 19. */
  lemma StaticCounts()
    ensures |Layers| == 5
    ensures forall l :: l in Layers ==> Renders(l)
    ensures LayerCount(Layers[0]) == 6 && LayerCount(Layers[1]) == 3 && LayerCount(Layers[2]) == 4
    ensures LayerCount(Layers[3]) == 2 && LayerCount(Layers[4]) == 4
    ensures HeaderCount(Layers) == 19
  {
    var subs := Layers[0].subcategories.value;
    assert SubcategoryFold(subs[1..], 2) == SubcategoryFold([], 6);
    assert LayersFold(Layers[1..], 6) == LayersFold(Layers[2..], 9);
    assert LayersFold(Layers[2..], 9) == LayersFold(Layers[3..], 13);
    assert LayersFold(Layers[3..], 13) == LayersFold(Layers[4..], 15);
    assert LayersFold(Layers[4..], 15) == LayersFold([], 19);
  }
}
