# Order listing API: the v6 flat-row regroup and the response envelope

This project models two pieces of the order listing API of the JPA shop.

- **`ordersV6`** runs one join query that returns one flat row per (order, line item) pair. It then regroups the rows in memory. Each row is keyed by its summary fields (order id, member name, order date, status, address). The row's line item (order id, item name, price, count) is appended to the list under that key. One `OrderQueryDto` is emitted per distinct key, with its items attached. The result is wrapped in a `Result` envelope.
- **`Result<T>`** is the JSON envelope. Its constructor stores `data`. It sets `count` to the list's size when `data` is a `java.util.List`, and to 1 otherwise, `null` included. It stamps `date` with the clock. Lombok `@Data` setters can change any field later. `count` is never recomputed.

Modules:

- `Domain` (`domain.dfy`) holds the value types the DTOs carry: date-time, order status and address.
- `OrderQueryDtos` (`order_query_dtos.dfy`) holds the flat row, the grouping key, the line item and the summary DTO. These are records that copy their arguments. It also has the split of a row into key and item, and the join that rebuilds the row.
- `ApiResult` (`api_result.dfy`) holds the `Result` class and the `instanceof List` view of `data` (`JavaValue`). `count` is a Java `int` (`int32`), and `List.size()` saturates at `Integer.MAX_VALUE`.
- `OrderApi` (`order_api.dfy`) holds the regroup and the `OrdersV6` method.

How the regroup is modelled:

- `groupingBy(..., mapping(..., toList()))` is a fold over the rows in encounter order (`Accumulate`). It builds a map from key to item list.
- A `HashMap` does not specify the order in which it yields its entries. So the entry order is a parameter `ks`. The only requirement on `ks` is that it lists every key of the map exactly once (`EntryOrder`). Every property is proved for every such order. `EntryOrderExists` shows that such an order always exists.
- The main results are stated against reference definitions over the input rows. `RowKeys` gives the keys of the rows. `ItemsFor` gives the items of the rows with a given key, in input order. `AllItems` gives every row's item.

## Model

| member | source | states |
|---|---|---|
| OrderQueryDtos.KeyOf | src/main/java/jpabook/jpashop/api/OrderApiController.java:101-102 | The grouping classifier: a row's key copies its order id, member name, order date, status and address unchanged. |
| OrderQueryDtos.ItemOf | src/main/java/jpabook/jpashop/api/OrderApiController.java:103-104 | The downstream mapper: a row's item copies its order id, item name, order price and count unchanged. |
| OrderQueryDtos.JoinRow | src/main/java/jpabook/jpashop/api/OrderApiController.java:101-104 | A row built from a key and an item of the same order splits back into exactly that key and that item. |
| OrderQueryDtos.RowSplitLossless | src/main/java/jpabook/jpashop/api/OrderApiController.java:101-104 | Splitting a flat row into its grouping key and its item loses nothing. The two parts share the order id, and joining them rebuilds the row. |
| OrderQueryDtos.Summary | src/main/java/jpabook/jpashop/api/OrderApiController.java:106-108 | An emitted summary carries exactly its entry's key fields and exactly the entry's item list. |
| OrderApi.RowKeysMembership | src/main/java/jpabook/jpashop/api/OrderApiController.java:101-102 | A key is among the rows' keys exactly when some row is classified under it. |
| OrderApi.ItemsFor | src/main/java/jpabook/jpashop/api/OrderApiController.java:103-104 | The reference filter has no more items than there are rows, and it is empty exactly when no row has the key. Each of its items has the key's order id. |
| OrderApi.AddRow | src/main/java/jpabook/jpashop/api/OrderApiController.java:100-104 | One collector step adds the row's key to the map. It appends the row's item to the end of that key's list, creating the list on first use. Every other list stays as it was. |
| OrderApi.Accumulate | src/main/java/jpabook/jpashop/api/OrderApiController.java:100-104 | The groupingBy fold: it feeds the rows to the collector one at a time, in encounter order, and the map gains exactly the rows' keys. |
| OrderApi.AccumulateList | src/main/java/jpabook/jpashop/api/OrderApiController.java:103-104 | Folding the rows appends to each key's list exactly the items of that key's rows, in input order. |
| OrderApi.GroupingBy | src/main/java/jpabook/jpashop/api/OrderApiController.java:100-105 | The map the collector returns for the flat rows, which has one entry per distinct row key. |
| OrderApi.GroupingBySpec | src/main/java/jpabook/jpashop/api/OrderApiController.java:100-105 | The grouping map has one entry per distinct row key. Each entry's list holds the items of exactly that key's rows, in input order. |
| OrderApi.CollectSummaries | src/main/java/jpabook/jpashop/api/OrderApiController.java:105-109 | The entry stream produces one summary per entry, in entry order. Each summary carries its entry's key and list. |
| OrderApi.Regroup | src/main/java/jpabook/jpashop/api/OrderApiController.java:100-109 | The whole pipeline: one summary per entry of the grouping, in the entry order. Summary i carries key i and the items of exactly that key's rows, in input order. |
| OrderApi.KeysByLastRow | src/main/java/jpabook/jpashop/api/OrderApiController.java:105 | Lists every row key exactly once, and nothing else. |
| OrderApi.EntryOrderExists | src/main/java/jpabook/jpashop/api/OrderApiController.java:105 | For every input there is an order in which the map can yield its entries. |
| OrderApi.RegroupGroups | src/main/java/jpabook/jpashop/api/OrderApiController.java:101-108 | The i-th summary carries the i-th key. Its items are the items of exactly the rows with that key, copied unchanged and in input order. No item list is empty. |
| OrderApi.RegroupItemOrderIds | src/main/java/jpabook/jpashop/api/OrderApiController.java:101-104 | Every item in a summary has that summary's order id. |
| OrderApi.RegroupKeysDistinct | src/main/java/jpabook/jpashop/api/OrderApiController.java:101-105 | No two summaries have the same key. |
| OrderApi.RegroupKeySet | src/main/java/jpabook/jpashop/api/OrderApiController.java:101-108 | The summaries' keys are exactly the rows' keys, so no group is invented or lost. There are as many summaries as distinct keys. |
| OrderApi.RegroupEmpty | src/main/java/jpabook/jpashop/api/OrderApiController.java:99-109 | No rows give no summaries. |
| OrderApi.RegroupLossless | src/main/java/jpabook/jpashop/api/OrderApiController.java:99-104 | Taken together, the summaries' items are a permutation of the rows' items, one item per row. The total item count equals the row count. |
| OrderApi.RowIdsMembership | src/main/java/jpabook/jpashop/api/OrderApiController.java:101 | An order id is among the rows' ids exactly when some row carries it. |
| OrderApi.ItemsWithId | src/main/java/jpabook/jpashop/api/OrderApiController.java:101-104 | Keying by order id alone: the id's item list is empty exactly when no row has that id. |
| OrderApi.KeyingByIdAgrees | src/main/java/jpabook/jpashop/api/OrderApiController.java:101-102 | Suppose rows with equal order ids agree on every summary field. Then a key's group is the same as its order id's group. |
| OrderApi.KeyCountIsIdCount | src/main/java/jpabook/jpashop/api/OrderApiController.java:101-102 | Under the same agreement, there are as many distinct keys as distinct order ids. |
| OrderApi.InconsistentRowsSplitOneOrder | src/main/java/jpabook/jpashop/api/OrderApiController.java:101-102 | Without that agreement the keyings differ. Two rows of one order with different member names form two groups. |
| OrderApi.RegroupEnvelopeCount | src/main/java/jpabook/jpashop/api/OrderApiController.java:109-110 | The envelope's count is the number of distinct row keys. |
| OrderApi.OrdersV6 | src/main/java/jpabook/jpashop/api/OrderApiController.java:97-111 | Returns a new envelope that holds the regrouped list as data, with count equal to the number of distinct keys and the supplied clock reading as date. |
| ApiResult.ListSize | src/main/java/jpabook/jpashop/api/Result.java:19 | `List.size()`: the number of elements when it fits in an int, and Integer.MAX_VALUE otherwise. |
| ApiResult.CountOf | src/main/java/jpabook/jpashop/api/Result.java:19-20 | A list gives its size, an empty list gives 0, and a list too long for an int gives Integer.MAX_VALUE. Anything else, null included, gives 1. |
| ApiResult.Result.constructor | src/main/java/jpabook/jpashop/api/Result.java:17-22 | Stores data exactly as given, sets count by the rule above, and sets date to the clock reading. |
| ApiResult.Result.SetData | src/main/java/jpabook/jpashop/api/Result.java:9-15 | Replaces data and changes nothing else. In particular count keeps the value the constructor computed. |
| ApiResult.Result.SetCount | src/main/java/jpabook/jpashop/api/Result.java:9-11 | Replaces count and changes nothing else. |
| ApiResult.Result.SetDate | src/main/java/jpabook/jpashop/api/Result.java:9-13 | Replaces date and changes nothing else. |

## Left out

- The repository and service calls (`findAll`, `findAllWithMemberDelivery`, `findOrderQueryDtos`, `findAllByDto_Optimization`, `findAllByDto_flat`, `OrderQueryService.ordersV3`) are not part of this model. They are persistence queries. The rows `findAllByDto_flat` returns are an arbitrary input sequence. Because of this, the choice between an inner and an outer join is not modelled. The regroup only ever emits orders that have at least one row (`RegroupKeySet`, `RegroupGroups`).
- The endpoints v1, v3, v4 and v5 only wrap a repository or service result in `Result`. The envelope's count rule, which `CountOf` and the constructor cover, is their only logic. The v1 loop only forces lazy loading and has no observable result.
- The endpoints v2 and v3.1 also map each `Order` through the `OrderDto` constructor. That constructor is not part of this model, so these two mappings are not modelled.
- The order in which the grouping's `HashMap` yields its entries is a parameter (`EntryOrder`), not a computed order. The properties hold for every such order.
- The order of groups: groups are not emitted in first-seen order. The code collects into a `HashMap`, so no order of groups is promised, and this model follows the code.
- `offset` and `limit` validation: the v3.1 endpoint passes them to the repository unchecked, with defaults 0 and 100. The code raises no invalid-argument error, so none is modelled.
- `OrderQueryDto.equals` is not part of this model. The grouping key is compared on all five summary fields. `KeyingByIdAgrees` and `KeyCountIsIdCount` show that comparing by order id alone gives the same groups when rows of one order agree on their summary fields. `InconsistentRowsSplitOneOrder` shows where the two differ.
- The DTO classes and their constructors are not part of this model, and neither are the `Address`, `OrderStatus` and `LocalDateTime` classes. All of them appear as plain records that copy their arguments. The status values are assumed to be `ORDER` and `CANCEL`. Java `null` for their fields is not modelled.
- `LocalDateTime.now()` is a constructor parameter. The `@JsonFormat` pattern and time zone are a serialisation concern and are not modelled.
- The `@Data` getters, `equals`, `hashCode` and `toString` of `Result` are not modelled. The fields are read directly.
- Query counts, N+1 behaviour, batch fetch size, transactions, HTTP routing and Spring wiring are framework and database effects.
